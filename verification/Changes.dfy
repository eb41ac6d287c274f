/** Notifications without a payload, one slot for each subscriber. */
module Changes {

  class Channel {
    var full: bool
    var closed: bool

    constructor ()
      ensures !full && !closed
    {
      full, closed := false, false;
    }

    /** A send that does not block. Sending on a closed channel would be an error. */
    method Offer()
      requires !closed
      modifies this`full
      ensures full
    {
      if !full {
        full := true;
      }
    }

    /** Closing twice would be an error. */
    method Close()
      requires !closed
      modifies this`closed
      ensures closed
    {
      closed := true;
    }
  }

  class TaskChanges {
    var closed: bool
    var subscribers: map<string, set<Channel>>

    /** Every channel with a subscription, open, and subscribed to one task only. */
    ghost predicate Valid()
      reads this, Channels()
    {
      && (forall id, ch | id in subscribers && ch in subscribers[id] :: !ch.closed)
      && (forall i, j, ch | i in subscribers && j in subscribers && ch in subscribers[i] && ch in subscribers[j] :: i == j)
      && (closed ==> subscribers == map[])
    }

    ghost function Channels(): set<Channel>
      reads this
    {
      set id, ch | id in subscribers && ch in subscribers[id] :: ch
    }

    constructor ()
      ensures Valid() && subscribers == map[] && !closed
    {
      closed, subscribers := false, map[];
    }

    method SubscribeTask(id: string) returns (ch: Channel)
      requires Valid()
      modifies this`subscribers
      ensures Valid() && fresh(ch) && !ch.full && ch.closed == closed
      ensures !closed ==>
                && id in subscribers && subscribers == old(subscribers)[id := subscribers[id]]
                && subscribers[id] == (if id in old(subscribers) then old(subscribers)[id] else {}) + {ch}
      ensures closed ==> subscribers == old(subscribers)
    {
      ch := new Channel();
      if closed {
        ch.Close();
        return;
      }
      if id !in subscribers {
        subscribers := subscribers[id := {}];
      }
      subscribers := subscribers[id := subscribers[id] + {ch}];
    }

    /** Taking a subscription back a second time, or after the store was closed, does nothing. */
    method Unsubscribe(id: string, ch: Channel)
      requires Valid()
      modifies this`subscribers, ch`closed
      ensures Valid()
      ensures var was := if id in old(subscribers) then old(subscribers)[id] else {};
              && (ch in was ==> ch.closed) && (ch !in was ==> ch.closed == old(ch.closed))
              && subscribers == if was - {ch} == {} then old(subscribers) - {id} else old(subscribers)[id := was - {ch}]
    {
      if id !in subscribers {
        assert subscribers - {id} == subscribers;
        return;
      }
      ghost var was := subscribers[id];
      assert ch !in was ==> was - {ch} == was;
      if ch in subscribers[id] {
        subscribers := subscribers[id := subscribers[id] - {ch}];
        ch.Close();
      }
      if subscribers[id] == {} {
        subscribers := subscribers - {id};
        assert subscribers == old(subscribers) - {id};
      } else {
        assert subscribers == old(subscribers)[id := was - {ch}];
      }
    }

    /** Afterwards every subscriber of the task has a wake-up waiting, and no one else got one. */
    method Notify(id: string)
      requires Valid()
      modifies if id in subscribers then subscribers[id] else {}
      ensures Valid() && subscribers == old(subscribers)
      ensures id in subscribers ==> forall ch | ch in subscribers[id] :: ch.full && !ch.closed
    {
      if id !in subscribers {
        return;
      }
      var todo := subscribers[id];
      while todo != {}
        invariant todo <= subscribers[id]
        invariant forall i, ch | i in subscribers && ch in subscribers[i] :: !ch.closed
        invariant forall ch | ch in subscribers[id] && ch !in todo :: ch.full
      {
        var ch :| ch in todo;
        ch.Offer();
        todo := todo - {ch};
      }
    }

    method Close()
      requires Valid()
      modifies this, Channels()
      ensures Valid() && closed && subscribers == map[]
      ensures forall ch | ch in old(Channels()) :: ch.closed
    {
      closed := true;
      ghost var all := Channels();
      var ids := subscribers.Keys;
      while ids != {}
        invariant ids <= subscribers.Keys && subscribers == old(subscribers) && closed
        invariant forall id, ch | id in subscribers && ch in subscribers[id] :: ch.closed <==> id !in ids
      {
        var id :| id in ids;
        CloseAll(subscribers[id]);
        ids := ids - {id};
      }
      subscribers := map[];
    }

    static method CloseAll(chs: set<Channel>)
      requires forall ch | ch in chs :: !ch.closed
      modifies chs
      ensures forall ch | ch in chs :: ch.closed
    {
      var todo := chs;
      while todo != {}
        invariant todo <= chs
        invariant forall ch | ch in chs :: ch.closed <==> ch !in todo
      {
        var ch :| ch in todo;
        ch.Close();
        todo := todo - {ch};
      }
    }
  }
}
