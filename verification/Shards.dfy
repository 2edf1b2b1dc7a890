/** A map of tenants split over a fixed number of shards by a hash of the tenant. */
module Shards {
  const NUM_SHARDS: nat := 32

  lemma ValuesInsert<K, V>(m: map<K, V>, k: K, v: V)
    requires k !in m
    ensures m[k := v].Values == m.Values + {v}
  {
    assert forall x :: x in m ==> m[k := v][x] == m[x];
    assert m[k := v][k] == v;
  }

  function ShardOf(hash: string -> nat, tenant: string): nat {
    hash(tenant) % NUM_SHARDS
  }

  /** Every shard holds exactly the tenants of `flat` that hash to it. */
  ghost predicate Represents<B>(hash: string -> nat, shards: seq<map<string, B>>, flat: map<string, B>) {
    && |shards| == NUM_SHARDS
    && (forall i, t :: 0 <= i < NUM_SHARDS && t in shards[i] ==> ShardOf(hash, t) == i && t in flat)
    && (forall t :: t in flat ==> t in shards[ShardOf(hash, t)] && shards[ShardOf(hash, t)][t] == flat[t])
  }

  lemma StoreRepresents<B>(hash: string -> nat, shards: seq<map<string, B>>, flat: map<string, B>,
                           tenant: string, b: B)
    requires Represents(hash, shards, flat)
    ensures var i := ShardOf(hash, tenant);
            Represents(hash, shards[i := shards[i][tenant := b]], flat[tenant := b])
  {
  }

  ghost predicate Distinct<K, V>(m: map<K, V>) {
    forall t, u :: t in m && u in m && t != u ==> m[t] != m[u]
  }

  lemma StoreDistinct<K, V>(m: map<K, V>, k: K, v: V)
    requires Distinct(m) && k !in m && v !in m.Values
    ensures Distinct(m[k := v]) && m[k := v].Values == m.Values + {v}
  {
    ValuesInsert(m, k, v);
    assert forall x :: x in m ==> m[x] in m.Values;
  }
}
