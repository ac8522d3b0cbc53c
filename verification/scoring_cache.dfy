/**
 The in-process scoring cache of app/pickscore/ranges_cache.py.

 Every method body below is one critical section of the module's lock. `State` is the
 module's globals as one value, and each method is proved to move `View()` exactly as the
 specification function of the same name does. ScoringProtocol interleaves those
 functions with the database.
 */
module ScoringCache {
  import opened Common

  const CACHE_TTL: real := 21600.0

  datatype State<D> = State(
    data: Option<D>, builtAt: real, builtGeneration: int, generation: int, refreshing: bool)

  function Fresh<D>(): State<D> {
    State(None, 0.0, -1, 0, false)
  }

  predicate Stale<D>(s: State<D>, now: real) {
    s.builtGeneration != s.generation || now - s.builtAt > CACHE_TTL
  }

  function Invalidated<D>(s: State<D>): State<D> {
    s.(generation := s.generation + 1)
  }

  function Stored<D>(s: State<D>, data: D, atGeneration: int, now: real): State<D> {
    if atGeneration >= s.builtGeneration
    then s.(data := Some(data), builtAt := now, builtGeneration := atGeneration)
    else s
  }

  /** Whether a rebuild thread is started; it is handed the generation current at that moment. */
  predicate Starts<D>(s: State<D>, now: real) {
    Stale(s, now) && s.data.Some? && !s.refreshing
  }

  function Requested<D>(s: State<D>, now: real): State<D> {
    if Starts(s, now) then s.(refreshing := true) else s
  }

  function Finished<D>(s: State<D>): State<D> {
    s.(refreshing := false)
  }

  class Cache<D> {
    var data: Option<D>
    var builtAt: real
    var builtGeneration: int
    var generation: int
    var refreshing: bool

    ghost function View(): State<D>
      reads this
    {
      State(data, builtAt, builtGeneration, generation, refreshing)
    }

    constructor ()
      ensures View() == Fresh()
    {
      data, builtAt, builtGeneration, generation, refreshing := None, 0.0, -1, 0, false;
    }

    method Invalidate()
      modifies this
      ensures View() == Invalidated(old(View()))
      ensures generation == old(generation) + 1
    {
      generation := generation + 1;
    }

    method Store(d: D, atGeneration: int, now: real)
      modifies this
      ensures View() == Stored(old(View()), d, atGeneration, now)
    {
      if atGeneration >= builtGeneration {
        data, builtAt, builtGeneration := Some(d), now, atGeneration;
      }
    }

    /** `started` is the generation handed to the rebuild thread this call spawned, if any. */
    method Get(now: real) returns (copy: Option<D>, started: Option<int>)
      modifies this`refreshing
      ensures View() == Requested(old(View()), now)
      ensures copy == old(data)
      ensures started == if Starts(old(View()), now) then Some(old(generation)) else None
      ensures started.Some? <==>
                && copy.Some? && !old(refreshing)
                && (old(builtGeneration) != generation || now - old(builtAt) > CACHE_TTL)
    {
      var stale := builtGeneration != generation || now - builtAt > CACHE_TTL;
      started := None;
      if stale && data.Some? {
        started := StartRebuild();
      }
      copy := data;
    }

    method Warm() returns (started: Option<int>)
      modifies this`refreshing
      ensures View() == old(View()).(refreshing := true)
      ensures started == if old(refreshing) then None else Some(old(generation))
    {
      started := StartRebuild();
    }

    /** One rebuild at a time: nothing is spawned while one is running. */
    method StartRebuild() returns (started: Option<int>)
      modifies this`refreshing
      ensures View() == old(View()).(refreshing := true)
      ensures started == if old(refreshing) then None else Some(old(generation))
    {
      if refreshing {
        return None;
      }
      refreshing := true;
      started := Some(generation);
    }

    /**
     A whole `_rebuild` run that nothing interleaves with. `built` is what `build()`
     returned, None when it raised; either way the flag is cleared.
     */
    method Rebuild(built: Option<D>, atGeneration: int, now: real)
      modifies this
      ensures View() ==
              Finished(if built.Some? then Stored(old(View()), built.value, atGeneration, now) else old(View()))
    {
      if built.Some? {
        Store(built.value, atGeneration, now);
      }
      refreshing := false;
    }
  }
}
