/** What the host reports, and the part of it that predictors learn from. */
module AppEvents {
  import opened Sequences
  import opened CacheTypes

  type AppId = string

  datatype EventType =
    | AppOpen | AppClose | AppBackground | AppForeground | UserInteraction
    | ModelLoad | ModelUnload | ModelInvoke | CacheHit | CacheMiss | Preload | Evict

  datatype AppEvent = AppEvent(eventType: EventType, appId: AppId, hourOfDay: Option<int>)

  /** Predictors learn from apps that open or come to the foreground. */
  predicate Opens(ev: AppEvent) {
    ev.eventType.AppOpen? || ev.eventType.AppForeground?
  }

  /** The apps opened in a log, in order. */
  function Opened(log: seq<AppEvent>): seq<AppId> {
    if log == [] then []
    else if Opens(Last(log)) then Opened(Init(log)) + [Last(log).appId]
    else Opened(Init(log))
  }

  lemma {:induction false} OpenedConcat(a: seq<AppEvent>, b: seq<AppEvent>)
    ensures Opened(a + b) == Opened(a) + Opened(b)
  {
    if b == [] {
      assert a + b == a;
    } else {
      assert Init(a + b) == a + Init(b);
      OpenedConcat(a, Init(b));
    }
  }
}
