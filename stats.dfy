/** The statistics collector both components bump as a side effect. */
module Stats {

  type Counters = map<string, int>

  function Get(m: Counters, key: string, default: int): int {
    if key in m then m[key] else default
  }

  /** inc_value(key, count, start=0): d[key] = d.setdefault(key, 0) + count. */
  function Inc(m: Counters, key: string, count: int): (r: Counters)
    ensures r.Keys == m.Keys + {key}
    ensures forall k :: k in m && k != key ==> r[k] == m[k]
    ensures key in m ==> r[key] == m[key] + count
    ensures key !in m ==> r[key] == count
  {
    m[key := Get(m, key, 0) + count]
  }

  /** max_value(key, value): d[key] = max(d.setdefault(key, value), value). */
  function Max(m: Counters, key: string, value: int): (r: Counters)
    ensures r.Keys == m.Keys + {key}
    ensures forall k :: k in m && k != key ==> r[k] == m[k]
    ensures r[key] >= value && (key in m ==> r[key] >= m[key])
    ensures r[key] == value || (key in m && r[key] == m[key])
  {
    var old_ := Get(m, key, value);
    m[key := if old_ < value then value else old_]
  }

  class StatsCollector {
    var values: Counters

    constructor ()
      ensures values == map[]
    {
      values := map[];
    }

    method IncValue(key: string)
      modifies this
      ensures values == Inc(old(values), key, 1)
    {
      values := Inc(values, key, 1);
    }

    method MaxValue(key: string, value: int)
      modifies this
      ensures values == Max(old(values), key, value)
    {
      values := Max(values, key, value);
    }
  }
}
