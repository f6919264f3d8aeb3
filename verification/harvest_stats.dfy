/**
 * The per-name statistics map of the scheduler: verbose name -> outcome key -> count
 * (src/plant_service.rs, `harvest_stats`).
 */
module HarvestStats {

  type Stats = map<string, map<string, nat>>

  /** An inner entry, counting a missing key as 0 (the source's `or_insert(0)`). */
  function Entry(inner: map<string, nat>, key: string): nat {
    if key in inner then inner[key] else 0
  }

  /** `*stats.entry(name).or_insert_with(HashMap::new).entry(key).or_insert(0) += 1`. */
  function Increment(stats: Stats, name: string, key: string): (r: Stats)
    ensures r.Keys == stats.Keys + {name}
    ensures Entry(r[name], key) == (if name in stats then Entry(stats[name], key) else 0) + 1
    ensures forall other :: other != key ==> Entry(r[name], other) == (if name in stats then Entry(stats[name], other) else 0)
    ensures forall n :: n in stats && n != name ==> r[n] == stats[n]
  {
    var empty: map<string, nat> := map[];
    var inner := if name in stats then stats[name] else empty;
    stats[name := inner[key := Entry(inner, key) + 1]]
  }

  /** The sum of one key's entries over a set of names. */
  ghost function SumOver(stats: Stats, names: set<string>, key: string): nat
    requires names <= stats.Keys
    decreases names
  {
    if names == {} then 0
    else
      var n :| n in names;
      Entry(stats[n], key) + SumOver(stats, names - {n}, key)
  }

  /** The sum of one key's entries over the whole map. */
  ghost function Total(stats: Stats, key: string): nat {
    SumOver(stats, stats.Keys, key)
  }

  /** The sum does not depend on the order the names are taken in. */
  lemma {:induction false} SumOverPick(stats: Stats, names: set<string>, n: string, key: string)
    requires names <= stats.Keys && n in names
    ensures SumOver(stats, names, key) == Entry(stats[n], key) + SumOver(stats, names - {n}, key)
    decreases names
  {
    var m :| m in names && SumOver(stats, names, key) == Entry(stats[m], key) + SumOver(stats, names - {m}, key);
    if m != n {
      SumOverPick(stats, names - {m}, n, key);
      SumOverPick(stats, names - {n}, m, key);
      assert names - {m} - {n} == names - {n} - {m};
    }
  }

  /** Two maps that agree on a key's entries for some names have the same sum over them. */
  lemma {:induction false} SumOverFrame(a: Stats, b: Stats, names: set<string>, key: string)
    requires names <= a.Keys && names <= b.Keys
    requires forall n :: n in names ==> Entry(a[n], key) == Entry(b[n], key)
    ensures SumOver(a, names, key) == SumOver(b, names, key)
    decreases names
  {
    if names != {} {
      var m :| m in names && SumOver(a, names, key) == Entry(a[m], key) + SumOver(a, names - {m}, key);
      SumOverPick(b, names, m, key);
      SumOverFrame(a, b, names - {m}, key);
    }
  }

  /** The empty map counts nothing. */
  lemma EmptyTotal(key: string)
    ensures Total(map[], key) == 0
  {
  }

  /**
   * Incrementing one entry raises that key's total by one and leaves every
   * other key's total alone.
   */
  lemma {:induction false} IncrementTotal(stats: Stats, name: string, key: string, other: string)
    requires other != key
    ensures Total(Increment(stats, name, key), key) == Total(stats, key) + 1
    ensures Total(Increment(stats, name, key), other) == Total(stats, other)
  {
    var r := Increment(stats, name, key);
    if name in stats {
      assert r.Keys == stats.Keys;
      SumOverPick(r, r.Keys, name, key);
      SumOverPick(stats, stats.Keys, name, key);
      SumOverFrame(r, stats, stats.Keys - {name}, key);
      SumOverPick(r, r.Keys, name, other);
      SumOverPick(stats, stats.Keys, name, other);
      SumOverFrame(r, stats, stats.Keys - {name}, other);
    } else {
      assert r.Keys - {name} == stats.Keys;
      SumOverPick(r, r.Keys, name, key);
      SumOverFrame(r, stats, stats.Keys, key);
      SumOverPick(r, r.Keys, name, other);
      SumOverFrame(r, stats, stats.Keys, other);
    }
  }
}
