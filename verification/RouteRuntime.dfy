/**
 * The routing state as the proxy keeps it, changed in place under one lock
 * (src/proxy/runtime.rs, `Inner` and the handlers that change its routes).
 */
module RouteRuntime {
  import opened Prelude
  import opened Config
  import opened Routing
  import opened RouteOrder
  import opened RouteTables

  class RoutingState {
    var config: seq<Backend>
    var defaultWait: real
    var routes: Routes
    var released: set<string>
    var preferred: string

    function Value(): Table
      reads this
    {
      Table(config, defaultWait, routes, released, preferred)
    }

    constructor (config: seq<Backend>, defaultWait: real)
      requires config != []
      ensures Value() == Table(config, defaultWait, map[], {}, config[0].id) && Sound(Value())
    {
      this.config, this.defaultWait, this.preferred := config, defaultWait, config[0].id;
      routes, released := map[], {};
    }

    method Check(spec: RouteSpec) returns (error: Option<RouteError>)
      ensures error == Objection(Value(), spec)
    {
      if !Accepts(Value(), spec) {
        return Some(InvalidRoute);
      }
      if spec.run != "" && spec.run in released {
        return Some(RunReleased);
      }
      if exists k :: k in routes && routes[k].spec.id == spec.id && !routes[k].spec.SameOwner(spec) {
        return Some(RouteConflict);
      }
      var prior := Earlier(routes, spec);
      if prior.Some? && (!prior.value.spec.SameOwner(spec) || prior.value.spec.role != spec.role) {
        return Some(RouteConflict);
      }
      error := None;
    }

    method ChooseProvider(route: TaskRoute, candidates: seq<Backend>, h: Health) returns (chosen: TaskRoute)
      ensures chosen == WithChoice(route, Choose(routes, route, candidates, 0, h))
    {
      var choice := Choose(routes, route, candidates, 0, h);
      chosen := route.(assignment := if choice.Some? then Some(choice.value.id) else None);
      if choice.Some? {
        chosen := chosen.(preferred := choice.value.id);
      }
    }

    /** The route a registration creates, continuing an earlier one. */
    method BuildRoute(spec: RouteSpec, h: Health) returns (route: TaskRoute)
      requires spec.providers != []
      ensures route == NewRoute(Value(), spec, h)
    {
      var prior := Earlier(routes, spec);
      var filled := spec.(wait := Some(if spec.wait.Some? then spec.wait.value else defaultWait));
      route := TaskRoute(filled, filled.providers[0], None, map[], None);
      if prior.Some? {
        route := prior.value.(spec := filled);
      }
      if !route.spec.role.NoRole? {
        route := ChooseProvider(route, config, h);
      }
    }

    method Install(spec: RouteSpec, route: TaskRoute)
      modifies this`routes
      ensures routes == Migrated(old(routes), spec)[spec.Key() := route]
    {
      if spec.Key() != spec.id && Placeholder(routes, spec).Some? {
        routes := routes - {spec.id};
      }
      routes := routes[spec.Key() := route];
    }

    /** The response is the registered route, or the error of the first check that fails. */
    method SetRoute(spec: RouteSpec, h: Health) returns (answer: Result<TaskRoute, RouteError>)
      requires Sound(Value())
      modifies this`routes
      ensures Sound(Value())
      ensures match Register(old(Value()), spec, h)
              case Ok(after) => Value() == after && answer == Ok(after.routes[spec.Key()])
              case Err(error) => Value() == old(Value()) && answer == Err(error)
    {
      var error := Check(spec);
      if error.Some? {
        return Err(error.value);
      }
      AcceptedIsNonempty(Value(), spec);
      var route := BuildRoute(spec, h);
      Install(spec, route);
      RegisterKeepsSound(old(Value()), spec, h);
      answer := Ok(route);
    }

    /** Drop the routes of a run and count them. */
    method Retain(run: string) returns (count: nat)
      modifies this`routes
      ensures routes == Kept(old(routes), run) && count == |old(routes)| - |routes|
    {
      var kept := Kept(routes, run);
      FewerKeys(kept, routes);
      count := |routes| - |kept|;
      routes := kept;
    }

    /** Drop the routes of a run and remember it. */
    method Forget(run: string) returns (count: Option<nat>)
      modifies this
      ensures Value() == Release(old(Value()), run)
      ensures count == if ValidId(run) then Some(|old(routes)| - |routes|) else None
    {
      if !ValidId(run) {
        return None;
      }
      var removed := Retain(run);
      released := released + {run};
      count := Some(removed);
    }

    /** A run with a valid id gives up its routes for good. */
    method ReleaseRoutes(run: string) returns (count: Option<nat>)
      requires Sound(Value())
      modifies this
      ensures Sound(Value()) && Value() == Release(old(Value()), run)
      ensures count == if ValidId(run) then Some(|old(routes)| - |routes|) else None
    {
      ReleaseKeepsSound(Value(), run);
      count := Forget(run);
    }

    method ReloadConfig(config': seq<Backend>, wait: real)
      requires Sound(Value())
      modifies this
      ensures Sound(Value()) && Value() == Reload(old(Value()), config', wait)
    {
      ReloadKeepsSound(Value(), config', wait);
      Adopt(config', wait);
    }

    /** Keep the routes the new configuration serves, and a preference that is still there. */
    method Adopt(config': seq<Backend>, wait: real)
      modifies this
      ensures Value() == Reload(old(Value()), config', wait)
    {
      routes := map k | k in routes && Compatible(routes[k].spec, config') :: routes[k];
      preferred := PreferenceAfter(preferred, config');
      config, defaultWait := config', wait;
    }

    method ReserveProvider(key: string, candidates: seq<Backend>, estimate: nat, h: Health)
      returns (selected: Option<Backend>)
      requires Sound(Value())
      modifies this`routes
      ensures Sound(Value()) && Value() == Reserve(old(Value()), key, candidates, estimate, h)
      ensures selected
              == if key in old(routes) then Choose(old(routes), old(routes)[key], candidates, estimate, h) else None
    {
      if key !in routes {
        return None;
      }
      selected := Choose(routes, routes[key], candidates, estimate, h);
      if selected.Some? {
        ReserveKeepsSound(Value(), key, candidates, estimate, h);
        var id := selected.value.id;
        routes := routes[key := routes[key].(assignment := Some(id), preferred := id)];
      }
    }

    /** An attempt that begins is noted on its live route. */
    method NoteAttemptOn(key: string, provider: string)
      requires Sound(Value())
      modifies this`routes
      ensures Sound(Value()) && Value() == NoteAttempt(old(Value()), key, provider)
    {
      NoteKeepsSound(Value(), key, provider);
      CountAttempt(key, provider);
    }

    method CountAttempt(key: string, provider: string)
      modifies this`routes
      ensures Value() == NoteAttempt(old(Value()), key, provider)
    {
      if key in routes {
        var route := routes[key];
        var count := if provider in route.attempts then route.attempts[provider] else 0;
        routes := routes[key := route.(lastProvider := Some(provider),
                                       attempts := route.attempts[provider := count + 1])];
      }
    }

    /** The role route at a key leaves a failed provider. */
    method Reassign(key: string, failed: string, config': seq<Backend>, h: Health)
      requires key in routes
      modifies this`routes
      ensures routes == old(routes)[key := WithChoice(old(routes)[key],
                          Choose(old(routes), old(routes)[key].(assignment := None), Without(config', failed), 0, h))]
    {
      var route := ChooseProvider(routes[key].(assignment := None), Without(config', failed), h);
      routes := routes[key := route];
    }

    /** Move away from a failed provider: by a new assignment, or by the next ready one in order. */
    method RotateRoute(key: Option<string>, failed: string, config': seq<Backend>, rotateOnFailure: bool, h: Health)
      requires Sound(Value())
      modifies this`routes, this`preferred
      ensures Sound(Value()) && Value() == Rotate(old(Value()), key, failed, config', rotateOnFailure, h)
    {
      RotateKeepsSound(Value(), key, failed, config', rotateOnFailure, h);
      if key.None? && !rotateOnFailure {
        return;
      }
      if key.Some? && key.value in routes && !routes[key.value].spec.role.NoRole? {
        Reassign(key.value, failed, config', h);
        return;
      }
      var next := NextReady(Order(routes, preferred, rotateOnFailure, config', key, h), failed, h);
      if next.None? {
        return;
      }
      if key.Some? && key.value in routes {
        if routes[key.value].preferred == failed {
          routes := routes[key.value := routes[key.value].(preferred := next.value)];
        }
      } else if preferred == failed {
        preferred := next.value;
      }
    }
  }
}
