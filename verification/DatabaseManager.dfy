/** The manager as the object it is, used by one caller at a time: a map of connections kept by `OpenNamed`. */
module DatabaseManager {
  import opened Prelude
  import opened DatabasePaths

  class Connection {
    const path: string

    constructor (path: string)
      ensures this.path == path
    {
      this.path := path;
    }
  }

  datatype OpenError = BadPath(e: PathError) | CannotOpen

  class Manager {
    const config: RuntimeConfig
    var connections: map<string, Connection>

    /** Different keys hold different connections. */
    ghost predicate Valid()
      reads this
    {
      forall k, m :: k in connections && m in connections && connections[k] == connections[m] ==> k == m
    }

    constructor (config: RuntimeConfig)
      ensures Valid() && this.config == config && connections == map[]
    {
      this.config := config;
      connections := map[];
    }

    /** The first critical section: what is cached under the key. */
    method Cached(key: string) returns (found: Option<Connection>)
      ensures found == Lookup(connections, key)
    {
      found := if key in connections then Some(connections[key]) else None;
    }

    /** The second one: whoever comes first stays, and everyone is given that one. */
    method InsertIfAbsent(key: string, fresher: Connection) returns (kept: Connection)
      requires Valid() && fresher !in connections.Values
      modifies this
      ensures Valid()
      ensures kept == (if key in old(connections) then old(connections)[key] else fresher)
      ensures connections == old(connections)[key := kept]
    {
      if key !in connections {
        assert forall k :: k in connections ==> connections[k] in connections.Values;
        connections := connections[key := fresher];
      }
      kept := connections[key];
    }

    /** `available` says whether the database library manages to open the path. */
    method OpenNamed(name: Option<string>, available: bool) returns (r: Result<Connection, OpenError>)
      requires Valid()
      modifies this
      ensures Valid()
      ensures !Resolvable(config, name) ==>
                && r.Err? && r.error.BadPath? && NotResolved(config, name, r.error.e)
                && connections == old(connections)
      ensures Resolvable(config, name) && DatabaseKey(name) in old(connections) ==>
                r == Ok(old(connections)[DatabaseKey(name)]) && connections == old(connections)
      ensures Resolvable(config, name) && DatabaseKey(name) !in old(connections) ==>
                if available then
                  && r.Ok? && fresh(r.value) && ResolvesTo(config, name, r.value.path)
                  && DatabasePath(config, name) == Ok(r.value.path)
                  && connections == old(connections)[DatabaseKey(name) := r.value]
                else r == Err(CannotOpen) && connections == old(connections)
    {
      PathResolves(config, name);
      var key := DatabaseKey(name);
      var target := DatabasePath(config, name);
      if target.Err? {
        return Err(BadPath(target.error));
      }
      var found := Cached(key);
      if found.Some? {
        return Ok(found.value);
      }
      if !available {
        return Err(CannotOpen);
      }
      var connection := new Connection(target.value);
      var kept := InsertIfAbsent(key, connection);
      return Ok(kept);
    }
  }
}
