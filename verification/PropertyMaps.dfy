/** The lazily filled property map that holds colours and remaining in-degrees. */
module PropertyMaps {

  /** What a reader of the map sees at `k`: keys without an entry read as their default. */
  function Lookup<K(==), T>(m: map<K, T>, defaultValue: K -> T, k: K): T
  {
    if k in m then m[k] else defaultValue(k)
  }

  /** The underlying map after a put: the sentinel value removes the entry. */
  function Put<K(==), T(==)>(m: map<K, T>, sentinel: T, k: K, val: T): map<K, T>
  {
    if val != sentinel then m[k := val] else m - {k}
  }

  class SparsePropertyMap<K(==), T(==)> {
    const sentinel: T
    const defaultValue: K -> T
    var underlying: map<K, T>

    constructor (sentinel: T, defaultValue: K -> T)
      ensures this.sentinel == sentinel && this.defaultValue == defaultValue
      ensures underlying == map[]
    {
      this.sentinel, this.defaultValue := sentinel, defaultValue;
      underlying := map[];
    }

    /** Writing the sentinel does not store it: the key reads as its default again afterwards. */
    method Write(k: K, val: T)
      modifies this
      ensures underlying == Put(old(underlying), sentinel, k, val)
      ensures Lookup(underlying, defaultValue, k) == if val == sentinel then defaultValue(k) else val
      ensures forall j | j != k ::
                Lookup(underlying, defaultValue, j) == Lookup(old(underlying), defaultValue, j)
    {
      if val != sentinel {
        underlying := underlying[k := val];
      } else {
        underlying := underlying - {k};
      }
    }

    /** Reading may add an entry, but never changes what any key reads as. */
    method Read(k: K) returns (val: T)
      modifies this
      ensures val == Lookup(old(underlying), defaultValue, k)
      ensures underlying == old(underlying)[k := val]
      ensures forall j :: Lookup(underlying, defaultValue, j) == Lookup(old(underlying), defaultValue, j)
    {
      if k !in underlying {
        val := defaultValue(k);
        underlying := underlying[k := val];
      } else {
        val := underlying[k];
      }
    }
  }
}
