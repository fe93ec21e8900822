/** The first-seen table: one entry per transaction hash, extended by later sightings and
    dropped by a sweep once its time has passed. */
module Dedupe {
  import opened Common

  type Hash = nat
  type Source = nat

  const U64_MAX: nat := 0xffff_ffff_ffff_ffff

  datatype FirstSeen = FirstSeen(firstNs: nat, sources: seq<(Source, nat)>, expiresAtNs: nat)

  function SatAdd(a: nat, b: nat): nat {
    Min(a + b, U64_MAX)
  }

  /** The entry a first sighting makes. */
  function Entry(source: Source, recvNs: nat, ttlNs: nat): FirstSeen {
    FirstSeen(recvNs, [(source, recvNs)], SatAdd(recvNs, ttlNs))
  }

  /** The table after a sighting: a new entry, or one more source on the old one. */
  function Sighted(table: map<Hash, FirstSeen>, hash: Hash, source: Source, recvNs: nat, ttlNs: nat): map<Hash, FirstSeen> {
    if hash in table then table[hash := table[hash].(sources := table[hash].sources + [(source, recvNs)])]
    else table[hash := Entry(source, recvNs, ttlNs)]
  }

  /** What is left of the table when the entries of `shard` that expired before `nowNs` are dropped. */
  function Swept(table: map<Hash, FirstSeen>, nowNs: nat, shard: set<Hash>): map<Hash, FirstSeen> {
    map h | h in table && !(h in shard && table[h].expiresAtNs < nowNs) :: table[h]
  }

  function Expired(table: map<Hash, FirstSeen>, nowNs: nat): set<Hash> {
    set h | h in table && table[h].expiresAtNs < nowNs
  }

  /** Sweeping shard by shard at one time is sweeping everything at once: no entry is
      spared or dropped because of the order. */
  lemma SweepByShards(table: map<Hash, FirstSeen>, nowNs: nat, a: set<Hash>, b: set<Hash>)
    ensures Swept(Swept(table, nowNs, a), nowNs, b) == Swept(table, nowNs, a + b)
  {
  }

  class Table {
    const ttlNs: nat
    var entries: map<Hash, FirstSeen>

    constructor (ttlSecs: nat)
      ensures entries == map[]
      ensures ttlSecs * 1000000000 <= 0xffff_ffff_ffff_ffff ==> ttlNs == ttlSecs * 1000000000
      ensures ttlSecs * 1000000000 > 0xffff_ffff_ffff_ffff ==> ttlNs == 0xffff_ffff_ffff_ffff
    {
      ttlNs := Min(ttlSecs * 1000000000, U64_MAX);
      entries := map[];
    }

    /** The fresh entry at a first sighting, nothing at a later one. A later sighting adds
        its source and changes neither the first time nor the expiry. */
    method Record(hash: Hash, source: Source, recvNs: nat) returns (first: Option<FirstSeen>)
      modifies this
      ensures entries == Sighted(old(entries), hash, source, recvNs, ttlNs)
      ensures first == if hash in old(entries) then None else Some(entries[hash])
      ensures hash !in old(entries) ==>
                && entries[hash].firstNs == recvNs && entries[hash].sources == [(source, recvNs)]
                && (recvNs + ttlNs <= 0xffff_ffff_ffff_ffff ==> entries[hash].expiresAtNs == recvNs + ttlNs)
                && (recvNs + ttlNs > 0xffff_ffff_ffff_ffff ==> entries[hash].expiresAtNs == 0xffff_ffff_ffff_ffff)
      ensures hash in old(entries) ==>
                && entries[hash].sources == old(entries)[hash].sources + [(source, recvNs)]
                && entries[hash].firstNs == old(entries)[hash].firstNs
                && entries[hash].expiresAtNs == old(entries)[hash].expiresAtNs
    {
      if hash !in entries {
        var fs := FirstSeen(recvNs, [(source, recvNs)], SatAdd(recvNs, ttlNs));
        entries := entries[hash := fs];
        return Some(fs);
      }
      var e := entries[hash];
      entries := entries[hash := e.(sources := e.sources + [(source, recvNs)])];
      return None;
    }

    method FirstSeenNs(hash: Hash) returns (ns: Option<nat>)
      ensures ns == if hash in entries then Some(entries[hash].firstNs) else None
    {
      ns := if hash in entries then Some(entries[hash].firstNs) else None;
    }

    /** Drops the expired entries and counts them. */
    method Sweep(nowNs: nat) returns (dropped: nat)
      modifies this
      ensures entries == Swept(old(entries), nowNs, old(entries.Keys))
      ensures forall h :: h in entries <==> h in old(entries) && old(entries)[h].expiresAtNs >= nowNs
      ensures dropped == |Expired(old(entries), nowNs)| == |old(entries)| - |entries|
    {
      var before := |entries.Keys|;
      ghost var all, gone := entries.Keys, Expired(entries, nowNs);
      entries := map h | h in entries && entries[h].expiresAtNs >= nowNs :: entries[h];
      var after := |entries.Keys|;
      assert entries.Keys == all - gone;
      assert all == (all - gone) + gone;
      dropped := SatSub(before, after);
    }
  }
}
