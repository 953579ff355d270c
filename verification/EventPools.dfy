/** The pool of events the daemon serves (daemon/eventpool.go). */
module EventPools {
  import opened Wrappers
  import B = Booking

  type Tag = string
  type UserName = string

  datatype Status = Running | Suspended | Booked | Closed

  datatype Event = Event(tag: Tag, createdBy: UserName, capacity: int, finish: B.Time, status: Status)

  /** What is served under an event's name. */
  datatype Handler = EventPages(tag: Tag) | SuspendPage

  datatype Pool = Pool(events: map<Tag, Event>, handlers: map<Tag, Handler>)

  function Added(p: Pool, ev: Event): Pool {
    Pool(p.events[ev.tag := ev], p.handlers[ev.tag := EventPages(ev.tag)])
  }

  function Removed(p: Pool, t: Tag): Pool {
    if t !in p.events then p else Pool(p.events - {t}, p.handlers - {t})
  }

  class EventPool {
    var events: map<Tag, Event>
    var handlers: map<Tag, Handler>

    function Contents(): Pool
      reads this
    {
      Pool(events, handlers)
    }

    constructor ()
      ensures Contents() == Pool(map[], map[])
    {
      events, handlers := map[], map[];
    }

    method AddEvent(ev: Event)
      modifies this
      ensures Contents() == Added(old(Contents()), ev)
    {
      events := events[ev.tag := ev];
      handlers := handlers[ev.tag := EventPages(ev.tag)];
    }

    method RemoveEvent(t: Tag) returns (known: bool)
      modifies this
      ensures Contents() == Removed(old(Contents()), t)
      ensures known <==> t in old(events)
    {
      if t !in events { return false; }
      events := events - {t};
      handlers := handlers - {t};
      known := true;
    }

    method GetEvent(t: Tag) returns (ev: Option<Event>)
      ensures ev == if t in events then Some(events[t]) else None
    {
      if t !in events { return None; }
      ev := Some(events[t]);
    }

    method SetHandler(t: Tag, h: Handler)
      modifies this`handlers
      ensures handlers == old(handlers)[t := h]
    {
      handlers := handlers[t := h];
    }

    /** Event.SetStatus on an event of the pool. */
    method SetStatus(t: Tag, status: Status)
      requires t in events
      modifies this`events
      ensures events == old(events)[t := old(events)[t].(status := status)]
    {
      events := events[t := events[t].(status := status)];
    }
  }
}
