/**
 * `DefEnvSpec`: the environment variables of a container request, a string
 * map held in a mutable cell that starts out holding an empty map. Keys and
 * values arrive here already turned into strings.
 */
module EnvSpecs {
  import opened Wrappers
  import opened Mutables

  class DefEnvSpec {
    /** `envMap`: the cell holding the environment map. */
    const envMap: DfMutable<map<string, string>>

    /** The cell starts holding an empty map. */
    constructor ()
      ensures fresh(envMap) && Valid() && Env() == map[]
    {
      envMap := new DfMutable.Of(Some(map[]));
    }

    /** The cell always holds a map, so `require()` never fails. */
    ghost predicate Valid()
      reads this, envMap
    {
      envMap.value.Some?
    }

    ghost function Env(): map<string, string>
      requires Valid()
      reads this, envMap
    {
      envMap.value.value
    }

    /** `pair(key, value)`: sets one variable, overwriting an earlier value of the same key. */
    method Pair(key: string, value: string)
      requires Valid()
      modifies envMap
      ensures Valid() && Env() == old(Env())[key := value]
    {
      var env := envMap.Require();
      var _ := envMap.Set(Some(env.value[key := value]));
    }

    /** `map(m)`: sets every variable of `m`, one `put` per entry, in whatever order `m` iterates. */
    method Map(m: map<string, string>)
      requires Valid()
      modifies envMap
      ensures Valid() && Env() == old(Env()) + m
    {
      ghost var start := Env();
      var remaining := m.Keys;
      while remaining != {}
        invariant remaining <= m.Keys
        invariant Valid() && Env() == start + (m - remaining)
        decreases |remaining|
      {
        var k :| k in remaining;
        var env := envMap.Require();
        var _ := envMap.Set(Some(env.value[k := m[k]]));
        PutStep(start, m, remaining, k);
        remaining := remaining - {k};
      }
      assert m - remaining == m;
    }
  }

  /** One more `put` of an entry of `m` extends the entries already put by that one. */
  lemma PutStep(start: map<string, string>, m: map<string, string>, remaining: set<string>, k: string)
    requires k in remaining && remaining <= m.Keys
    ensures (start + (m - remaining))[k := m[k]] == start + (m - (remaining - {k}))
  {
    assert m - (remaining - {k}) == (m - remaining)[k := m[k]];
  }
}
