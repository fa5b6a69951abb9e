/** The auto-reload coordinator (app/lib/watcherService.js): one file watcher
    per instance on its `extensions` directory, and a debounced restart that
    fires a second after the last change. Watchers are the set of watched ids,
    timers the `restartTimers` map with each timer's due time on a logical
    clock, and a restart that fires is logged by id; the restart itself is
    the supervisor's and is run by the caller. */
module Watcher {
  import opened Wrappers
  import opened Values
  import opened Errors
  import opened Schema

  /** The debounce delay, in milliseconds. */
  const Debounce: int := 1000

  /** A `setTimeout` handle: when it is due and whether it has yet to run.
      A timer that has run stays in the map until a later change or a stop
      replaces or removes it. */
  datatype Timer = Timer(due: int, pending: bool)

  datatype Watch = Watch(clock: int, watchers: set<string>, timers: map<string, Timer>, restarts: seq<string>)

  /** Timers only exist for watched instances. */
  predicate Valid(w: Watch) {
    w.timers.Keys <= w.watchers
  }

  /** `isWatching(id)`. */
  predicate IsWatching(w: Watch, id: string) {
    id in w.watchers
  }

  /** `stopWatching(id)`: a watched id loses its watcher and any timer; an
      unwatched id is left alone. */
  function StopWatching(w: Watch, id: string): (r: Watch)
    ensures !IsWatching(r, id)
    ensures IsWatching(w, id) ==> id !in r.timers
    ensures !IsWatching(w, id) ==> r == w
    ensures r.clock == w.clock && r.restarts == w.restarts
    ensures forall j :: j != id ==> (IsWatching(r, j) <==> IsWatching(w, j))
    ensures forall j :: j != id && j in w.timers ==> j in r.timers && r.timers[j] == w.timers[j]
    ensures r.timers.Keys <= w.timers.Keys
  {
    if id in w.watchers then w.(watchers := w.watchers - {id}, timers := w.timers - {id}) else w
  }

  /** The result of `startWatching`: the coordinator after the call, and the
      error it threw. */
  datatype Started = Started(watch: Watch, error: Option<Error>)

  /** `startWatching(id)`: tear down any existing watch first, then throw for an
      unknown id, return quietly when `auto_reload` is off, and otherwise watch. */
  function StartWatching(w: Watch, rows: seq<Instance>, id: string): Started {
    var w := StopWatching(w, id);
    match Find(rows, id)
    case None => Started(w, Some(InstanceNotFound))
    case Some(row) =>
      if !CellTruthy(row.autoReload) then Started(w, None)
      else Started(w.(watchers := w.watchers + {id}), None)
  }

  /** `handleFileChange(id, …)`: the pending timer, if any, is replaced by one due
      a second from now. For an id with no row the handler fails on the missing
      instance before touching the timers. */
  function FileChanged(w: Watch, rows: seq<Instance>, id: string): Watch {
    if Find(rows, id).None? then w
    else w.(timers := w.timers[id := Timer(w.clock + Debounce, true)])
  }

  /** The clock moves forward to `t`. */
  function Tick(w: Watch, t: int): Watch {
    if t > w.clock then w.(clock := t) else w
  }

  /** The timer of `id` runs if it is pending and due: the restart is logged
      and the timer is spent. */
  function Fire(w: Watch, id: string): Watch {
    if id in w.timers && w.timers[id].pending && w.timers[id].due <= w.clock then
      w.(timers := w.timers[id := w.timers[id].(pending := false)], restarts := w.restarts + [id])
    else w
  }

  /** `stopAll()`: stop every watched id. */
  function StopAll(w: Watch): (r: Watch)
    ensures forall id :: !IsWatching(r, id)
    ensures forall j :: j in r.timers <==> j in w.timers && !IsWatching(w, j)
    ensures r.clock == w.clock && r.restarts == w.restarts
  {
    w.(watchers := {}, timers := map j | j in w.timers && j !in w.watchers :: w.timers[j])
  }

  /** What can happen to the coordinator: a file event from a watcher, time
      passing, a timer coming due, and the three calls. */
  datatype Event =
    | Changed(id: string)
    | TimePasses(t: int)
    | TimerDue(id: string)
    | StartWatch(id: string)
    | StopWatch(id: string)
    | StopEverything

  /** One event. File events come only from an open watcher, so a change to an
      unwatched instance is never seen. */
  function Step(w: Watch, rows: seq<Instance>, e: Event): Watch {
    match e
    case Changed(id) => if IsWatching(w, id) then FileChanged(w, rows, id) else w
    case TimePasses(t) => Tick(w, t)
    case TimerDue(id) => Fire(w, id)
    case StartWatch(id) => StartWatching(w, rows, id).watch
    case StopWatch(id) => StopWatching(w, id)
    case StopEverything => StopAll(w)
  }

  function Replay(w: Watch, rows: seq<Instance>, es: seq<Event>): Watch
    decreases |es|
  {
    if |es| == 0 then w else Replay(Step(w, rows, es[0]), rows, es[1..])
  }

  /** A burst of changes at the given times: at each, time moves on, a due
      timer gets its chance to run, then the change arrives. */
  function Burst(w: Watch, rows: seq<Instance>, id: string, times: seq<int>): Watch
    decreases |times|
  {
    if |times| == 0 then w
    else Burst(Step(Fire(Tick(w, times[0]), id), rows, Changed(id)), rows, id, times[1..])
  }

  // ---------------------------------------------------------------------------
  // Properties

  /** Every event keeps timers confined to watched instances. */
  lemma StepValid(w: Watch, rows: seq<Instance>, e: Event)
    requires Valid(w)
    ensures Valid(Step(w, rows, e))
  {
  }

  lemma {:induction false} ReplayValid(w: Watch, rows: seq<Instance>, es: seq<Event>)
    requires Valid(w)
    ensures Valid(Replay(w, rows, es))
    decreases |es|
  {
    if |es| > 0 {
      StepValid(w, rows, es[0]);
      ReplayValid(Step(w, rows, es[0]), rows, es[1..]);
    }
  }

  /** After `startWatching` the instance is watched exactly when it exists and
      has `auto_reload` on; an unknown id throws, after the teardown. Either way
      no timer of the instance survives and other instances are untouched. */
  lemma StartWatchingEffect(w: Watch, rows: seq<Instance>, id: string)
    ensures var r := StartWatching(w, rows, id);
      && (IsWatching(r.watch, id) <==> Find(rows, id).Some? && CellTruthy(Find(rows, id).value.autoReload))
      && (r.error.Some? <==> Find(rows, id).None?)
      && (r.error.Some? ==> r.error.value == InstanceNotFound)
      && (IsWatching(w, id) ==> id !in r.watch.timers)
      && (forall j :: j != id ==> (IsWatching(r.watch, j) <==> IsWatching(w, j)))
      && (forall j :: j != id && j in w.timers ==> j in r.watch.timers && r.watch.timers[j] == w.timers[j])
      && r.watch.restarts == w.restarts
  {
  }

  /** Starting a watch twice is the same as starting it once; so is stopping. */
  lemma WatchIdempotent(w: Watch, rows: seq<Instance>, id: string)
    requires Valid(w)
    ensures StartWatching(StartWatching(w, rows, id).watch, rows, id) == StartWatching(w, rows, id)
    ensures StopWatching(StopWatching(w, id), id) == StopWatching(w, id)
  {
  }

  /** `stopAll` leaves nothing watched and, timers being confined to watched
      instances, no timer either. */
  lemma StopAllClears(w: Watch)
    requires Valid(w)
    ensures forall id :: !IsWatching(StopAll(w), id)
    ensures StopAll(w).timers == map[]
  {
  }

  /** A change to a watched instance cancels its pending timer and arms one due
      a second later, whatever was pending before. */
  lemma ChangeRearms(w: Watch, rows: seq<Instance>, id: string)
    requires IsWatching(w, id) && Find(rows, id).Some?
    ensures var r := Step(w, rows, Changed(id));
      && r.timers == w.timers[id := Timer(w.clock + Debounce, true)]
      && r.restarts == w.restarts && r.watchers == w.watchers
  {
  }

  /** A burst of changes to a watched instance, no two more than a second
      apart (measured from the previous change), triggers no restart while it
      lasts and leaves exactly one pending timer, due a second after the last
      change. */
  lemma {:induction false} BurstArmsOnce(w: Watch, rows: seq<Instance>, id: string, times: seq<int>)
    requires IsWatching(w, id) && Find(rows, id).Some?
    requires |times| >= 1 && w.clock <= times[0]
    requires id in w.timers && w.timers[id].pending ==> times[0] < w.timers[id].due
    requires forall i :: 0 < i < |times| ==> times[i - 1] <= times[i] < times[i - 1] + Debounce
    ensures var r := Burst(w, rows, id, times);
      && r.restarts == w.restarts
      && id in r.timers && r.timers[id] == Timer(times[|times| - 1] + Debounce, true)
      && r.clock == times[|times| - 1]
      && IsWatching(r, id)
    decreases |times|
  {
    var w1 := Step(Fire(Tick(w, times[0]), id), rows, Changed(id));
    assert Fire(Tick(w, times[0]), id) == Tick(w, times[0]);
    assert w1.timers[id] == Timer(times[0] + Debounce, true) && w1.clock == times[0];
    if |times| > 1 {
      BurstArmsOnce(w1, rows, id, times[1..]);
      assert times[1..][|times[1..]| - 1] == times[|times| - 1];
    }
  }

  /** Once the burst is over, the instance restarts exactly once, when the
      clock reaches a second after the last change, and not before. */
  lemma BurstRestartsOnce(w: Watch, rows: seq<Instance>, id: string, times: seq<int>)
    requires IsWatching(w, id) && Find(rows, id).Some?
    requires |times| >= 1 && w.clock <= times[0]
    requires id in w.timers && w.timers[id].pending ==> times[0] < w.timers[id].due
    requires forall i :: 0 < i < |times| ==> times[i - 1] <= times[i] < times[i - 1] + Debounce
    ensures var b := Burst(w, rows, id, times);
      var last := times[|times| - 1];
      && Fire(Tick(b, last + Debounce - 1), id).restarts == w.restarts
      && Fire(Tick(b, last + Debounce), id).restarts == w.restarts + [id]
      && Fire(Fire(Tick(b, last + Debounce), id), id).restarts == w.restarts + [id]
  {
    BurstArmsOnce(w, rows, id, times);
  }
}
