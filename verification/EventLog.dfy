/** The in-memory event log. */
module EventLog {
  import opened AppEvents

  function Suffix<T>(s: seq<T>, n: nat): seq<T> {
    if |s| <= n then s else s[|s| - n..]
  }

  class InMemoryStorage {
    var events: seq<AppEvent>

    constructor ()
      ensures events == []
    {
      events := [];
    }

    method AppendEvent(ev: AppEvent)
      modifies this
      ensures events == old(events) + [ev]
    {
      events := events + [ev];
    }

    /** The last `limit` events, oldest first. */
    method LoadEvents(limit: nat) returns (out: seq<AppEvent>)
      ensures out == Suffix(events, limit)
    {
      out := [];
      var n := if limit < |events| then limit else |events|;
      for i := |events| - n to |events|
        invariant out == events[|events| - n..i]
      {
        out := out + [events[i]];
      }
    }

    method Reset()
      modifies this
      ensures events == []
    {
      events := [];
    }
  }
}
