/** The Upstash Redis client that each core file builds from the environment,
    reduced to the two commands the core uses: GET and SET on string keys.
    The store itself is the dictionary `entries`; the HTTP transport is not modelled. */
module Redis {

  /** A value or JavaScript's `null`. */
  datatype Option<+T> = None | Some(value: T)

  /** What `redis.get(key)` answers for a store holding `entries`:
      the stored string, or null when the key is absent. */
  function Lookup(entries: map<string, string>, key: string): Option<string>
  {
    if key in entries then Some(entries[key]) else None
  }

  /** The shared key-value store, updated in place by SET. */
  class Store {
    var entries: map<string, string>

    constructor (initial: map<string, string>)
      ensures entries == initial
    {
      entries := initial;
    }

    /** GET: a single read-only point lookup. */
    method Get(key: string) returns (r: Option<string>)
      ensures r.Some? <==> key in entries
      ensures r.Some? ==> r.value == entries[key]
    {
      if key in entries {
        r := Some(entries[key]);
      } else {
        r := None;
      }
    }

    /** SET: an unconditional write of `value` at `key`, overwriting any earlier
        mapping. `fault` stands for a failed request to the managed store
        (network, timeout, authentication), which the environment decides; a
        failed request reports `ok == false` and writes nothing. */
    method Set(key: string, value: string, fault: bool) returns (ok: bool)
      modifies this
      ensures ok == !fault
      ensures ok ==> entries == old(entries)[key := value]
      ensures !ok ==> entries == old(entries)
    {
      ok := !fault;
      if ok {
        entries := entries[key := value];
      }
    }
  }
}
