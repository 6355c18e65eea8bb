/**
  The transient key-value store the connector shares between requests (Redis
  in the deployed system): string keys mapped to string values. Expiry is not
  part of this model; a key that expires behaves like a deleted one.
*/
module Redis {
  import opened Wrappers

  class Store {
    var entries: map<string, string>

    constructor ()
      ensures entries == map[]
    {
      entries := map[];
    }

    /** `add_key_value_redis(key, value, expire)` */
    method Set(key: string, value: string)
      modifies this
      ensures entries == old(entries)[key := value]
    {
      entries := entries[key := value];
    }

    /** `get_value_redis(key)`: None for a key that is absent. */
    method Get(key: string) returns (value: Option<string>)
      ensures value.Some? <==> key in entries
      ensures value.Some? ==> value.value == entries[key]
    {
      if key in entries {
        value := Some(entries[key]);
      } else {
        value := None;
      }
    }

    /** `delete_key_redis(key)` */
    method Delete(key: string)
      modifies this
      ensures entries == old(entries) - {key}
    {
      entries := entries - {key};
    }
  }
}
