/** The effect of the `Chart` component (src/components/Chart.js:48-67): it
    renders once and, unless that render throws, registers a debounced
    "resize" handler that cancels the pending timer and schedules a new 100 ms
    one that renders again; on cleanup it removes the handler and cancels the
    pending timer. The browser's timer queue is modelled by the timers this
    instance has scheduled. */
module Resize {
  import opened Wrappers
  import opened Values
  import opened Chart

  /** The debounce delay in milliseconds. */
  const DebounceDelay: int := 100

  class ResizeCoordinator {
    /** The series the effect was created for (the effect closes over it). */
    const data: Option<seq<Entry>>
    /** Whether `handleResize` is registered for "resize". */
    var listening: bool
    /** `resizeTimeout`: the id `setTimeout` last returned, if any. */
    var timeout: Option<nat>
    /** The timers of this instance still waiting to run: id to due time. */
    var timers: map<nat, int>
    /** The id `setTimeout` hands out next. */
    var nextId: nat
    /** What the last render pass drew. */
    var shown: Outcome
    /** How many render passes have run. */
    var renders: nat

    /** At most one timer is pending, and it is the one `resizeTimeout` holds. */
    predicate Valid()
      reads this
    {
      (forall id :: id in timers ==> timeout == Some(id)) &&
      (timeout.Some? ==> timeout.value < nextId)
    }

    /** Mounting: `renderChart()` for the container's current size, then
        `addEventListener("resize", handleResize)`. A first render that throws
        ends the effect before the handler is registered, so no resize ever
        renders again. */
    constructor Mount(data: Option<seq<Entry>>, containerWidth: nat, containerHeight: nat)
      ensures Valid()
      ensures this.data == data && timeout == None && timers == map[]
      ensures listening <==> !Render(data, containerWidth, containerHeight).Threw?
      ensures shown == Render(data, containerWidth, containerHeight) && renders == 1
    {
      var first := Render(data, containerWidth, containerHeight);
      this.data := data;
      shown := first;
      renders := 1;
      listening := !first.Threw?;
      timeout := None;
      timers := map[];
      nextId := 1;
    }

    /** A "resize" event at time `now`. While the handler is registered it
        cancels the pending timer and schedules a new one due `DebounceDelay`
        later; after cleanup the event does not reach it. */
    method Resize(now: int)
      requires Valid()
      modifies this
      ensures Valid()
      ensures !old(listening) ==> unchanged(this)
      ensures old(listening) ==>
        && listening
        && timers == map[old(nextId) := now + DebounceDelay]
        && timeout == Some(old(nextId))
        && nextId == old(nextId) + 1
        && shown == old(shown) && renders == old(renders)
    {
      if listening {
        if timeout.Some? {
          timers := timers - {timeout.value};
        }
        assert timers == map[];
        timers := timers[nextId := now + DebounceDelay];
        timeout := Some(nextId);
        nextId := nextId + 1;
      }
    }

    /** The browser runs timer `id` at time `now`, measuring the container
        anew. A timer that was cancelled, or is not yet due, does nothing; the
        pending one renders once and is gone. */
    method Fire(id: nat, now: int, containerWidth: nat, containerHeight: nat)
      requires Valid()
      modifies this
      ensures Valid()
      ensures old(id in timers && timers[id] <= now) ==>
        && timers == map[]
        && shown == Render(data, containerWidth, containerHeight)
        && renders == old(renders) + 1
        && listening == old(listening) && timeout == old(timeout) && nextId == old(nextId)
      ensures !old(id in timers && timers[id] <= now) ==> unchanged(this)
    {
      if id in timers && timers[id] <= now {
        timers := timers - {id};
        assert timers == map[];
        shown := Render(data, containerWidth, containerHeight);
        renders := renders + 1;
      }
    }

    /** Cleanup: `removeEventListener` and `clearTimeout(resizeTimeout)`.
        Afterwards no timer is pending, so no render can follow. */
    method Cleanup()
      requires Valid()
      modifies this
      ensures Valid()
      ensures !listening && timers == map[]
      ensures timeout == old(timeout) && nextId == old(nextId)
      ensures shown == old(shown) && renders == old(renders)
    {
      listening := false;
      if timeout.Some? {
        timers := timers - {timeout.value};
      }
    }
  }

  /** A burst of resize events renders once, for the size the container has
      when the last event's timer runs; earlier timers were cancelled, and
      after cleanup neither events nor timers render. When the first render
      throws, no handler was registered and nothing renders again. Returns
      the number of render passes and what the last one drew. */
  method DebounceScenario(data: Option<seq<Entry>>, w0: nat, h0: nat, w1: nat, h1: nat)
    returns (renders: nat, shown: Outcome)
    ensures renders == (if Render(data, w0, h0).Threw? then 1 else 2)
    ensures shown == (if Render(data, w0, h0).Threw? then Render(data, w0, h0) else Render(data, w1, h1))
  {
    var c := new ResizeCoordinator.Mount(data, w0, h0);
    if c.listening {
      c.Resize(0);
      var first := c.timeout.value;
      c.Resize(30);
      c.Resize(60);
      var last := c.timeout.value;
      assert c.timers == map[last := 160];
      c.Fire(first, 100, w1, h1);
      assert c.renders == 1;
      c.Fire(last, 159, w1, h1);
      assert c.renders == 1;
      c.Fire(last, 160, w1, h1);
      assert c.renders == 2 && c.shown == Render(data, w1, h1);
      c.Resize(200);
      c.Cleanup();
      assert c.timers == map[];
      c.Resize(250);
      c.Fire(c.nextId - 1, 400, w0, h0);
    } else {
      // No handler: resize events reach nothing, so no timer ever fires.
      c.Resize(0);
      c.Resize(30);
      assert c.timers == map[];
      c.Fire(0, 160, w1, h1);
    }
    renders, shown := c.renders, c.shown;
  }
}
