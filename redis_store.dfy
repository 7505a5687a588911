/**
 * The part of Redis the adapter relies on: one keyspace in which a key holds
 * either a hash (field -> value) or a set of strings, with the commands HGETALL,
 * HSET, DEL, SADD, SREM and SMEMBERS.
 *
 * Redis never keeps an empty hash or an empty set: HSET without fields is refused,
 * and removing the last field or member removes the key. `WellFormed` records this,
 * so "no hash at the key" (`None` below) is exactly the case where Redis answers
 * HGETALL with an empty reply.
 */
module RedisStore {
  import opened Wrappers

  /** A hash as the adapter reads and writes it: string fields to string values. */
  type Record = map<string, string>

  /** Everything stored: hashes and sets, by key. */
  datatype Keyspace = Keyspace(hashes: map<string, Record>, sets: map<string, set<string>>)

  const EmptyKeyspace := Keyspace(map[], map[])

  /** No key holds an empty hash or an empty set. */
  predicate WellFormed(s: Keyspace)
  {
    && (forall k :: k in s.hashes ==> s.hashes[k] != map[])
    && (forall k :: k in s.sets ==> s.sets[k] != {})
  }

  /**
   * In a well-formed keyspace a hash read is never empty, and a set read is empty
   * exactly when no set is stored: `None` and `{}` stand for Redis's empty replies.
   */
  lemma EmptyReplyMeansAbsent(s: Keyspace, key: string)
    requires WellFormed(s)
    ensures HashAt(s, key).Some? ==> HashAt(s, key).value != map[]
    ensures Members(s, key) == {} <==> key !in s.sets
  {
  }

  /** HGETALL: the hash at `key`, `None` when there is none. */
  function HashAt(s: Keyspace, key: string): Option<Record>
  {
    if key in s.hashes then Some(s.hashes[key]) else None
  }

  /** SMEMBERS: the set at `key`, empty when there is none. */
  function Members(s: Keyspace, key: string): set<string>
  {
    if key in s.sets then s.sets[key] else {}
  }

  /** Every field of `fields` is present in `rec` with the same value. */
  predicate Overlays(rec: Record, fields: Record)
  {
    forall f :: f in fields ==> f in rec && rec[f] == fields[f]
  }

  /**
   * HSET with several field/value pairs: the supplied fields are written over the
   * hash at `key` (created if absent); fields not supplied keep their values.
   */
  function HashWrite(s: Keyspace, key: string, fields: Record): (r: Keyspace)
    requires fields != map[]
    ensures HashAt(r, key).Some? && Overlays(HashAt(r, key).value, fields)
    ensures HashAt(r, key).value.Keys
         == fields.Keys + (if HashAt(s, key).Some? then HashAt(s, key).value.Keys else {})
    ensures HashAt(s, key).Some? ==>
              forall f :: f in HashAt(s, key).value && f !in fields ==>
                HashAt(r, key).value[f] == HashAt(s, key).value[f]
    ensures HashAt(s, key).None? || HashAt(s, key).value.Keys <= fields.Keys ==>
              HashAt(r, key) == Some(fields)
    ensures forall k :: k != key ==> HashAt(r, k) == HashAt(s, k)
    ensures r.sets == s.sets
    ensures WellFormed(s) ==> WellFormed(r)
  {
    var before := if key in s.hashes then s.hashes[key] else map[];
    assert before.Keys <= fields.Keys ==> before + fields == fields;
    s.(hashes := s.hashes[key := before + fields])
  }

  /** DEL: whatever `key` holds, hash or set, is gone; every other key is untouched. */
  function Delete(s: Keyspace, key: string): (r: Keyspace)
    ensures HashAt(r, key) == None && key !in r.sets
    ensures forall k :: k != key ==> HashAt(r, k) == HashAt(s, k)
    ensures forall k :: k != key ==> Members(r, k) == Members(s, k)
    ensures r.hashes.Keys <= s.hashes.Keys && r.sets.Keys <= s.sets.Keys
    ensures WellFormed(s) ==> WellFormed(r)
  {
    Keyspace(s.hashes - {key}, s.sets - {key})
  }

  /** SADD of one member: the set at `key` gains `member` (and is created if absent). */
  function MemberAdded(s: Keyspace, key: string, member: string): (r: Keyspace)
    ensures Members(r, key) == Members(s, key) + {member}
    ensures forall k :: k != key ==> Members(r, k) == Members(s, k)
    ensures r.hashes == s.hashes
    ensures WellFormed(s) ==> WellFormed(r)
  {
    s.(sets := s.sets[key := Members(s, key) + {member}])
  }

  /**
   * SREM of one member: the set at `key` loses `member`; a set left empty
   * disappears, and a missing set stays missing.
   */
  function MemberRemoved(s: Keyspace, key: string, member: string): (r: Keyspace)
    ensures Members(r, key) == Members(s, key) - {member}
    ensures forall k :: k != key ==> Members(r, k) == Members(s, k)
    ensures r.hashes == s.hashes
    ensures WellFormed(s) ==> WellFormed(r)
  {
    if key !in s.sets then s
    else
      var rest := s.sets[key] - {member};
      if rest == {} then s.(sets := s.sets - {key}) else s.(sets := s.sets[key := rest])
  }

  /** DEL of every key in `keys`, in any order: the keys are gone, nothing else changes. */
  function DeleteAll(s: Keyspace, keys: set<string>): (r: Keyspace)
    ensures forall k :: HashAt(r, k) == if k in keys then None else HashAt(s, k)
    ensures forall k :: Members(r, k) == if k in keys then {} else Members(s, k)
    ensures keys == {} ==> r == s
    ensures WellFormed(s) ==> WellFormed(r)
  {
    assert keys == {} ==> s.hashes - keys == s.hashes && s.sets - keys == s.sets;
    Keyspace(s.hashes - keys, s.sets - keys)
  }

  /** Deleting one more key extends the set of deleted keys. */
  lemma DeleteAllStep(s: Keyspace, keys: set<string>, key: string)
    ensures Delete(DeleteAll(s, keys), key) == DeleteAll(s, keys + {key})
  {
  }

  /**
   * The Redis connection the adapter is given. Its two fields are the keyspace;
   * each method is one command and changes the keyspace as the function of the
   * same command above says.
   */
  class Store {
    var hashes: map<string, Record>
    var sets: map<string, set<string>>

    function Contents(): Keyspace
      reads this
    {
      Keyspace(hashes, sets)
    }

    ghost predicate Valid()
      reads this
    {
      WellFormed(Contents())
    }

    /** An empty database. */
    constructor ()
      ensures Valid() && Contents() == EmptyKeyspace
    {
      hashes := map[];
      sets := map[];
    }

    method HGetAll(key: string) returns (r: Option<Record>)
      ensures r == HashAt(Contents(), key)
      ensures Valid() ==> (r.None? <==> key !in hashes) && (r.Some? ==> r.value != map[])
    {
      r := if key in hashes then Some(hashes[key]) else None;
    }

    method HSet(key: string, fields: Record)
      requires Valid() && fields != map[]
      modifies this
      ensures Valid() && Contents() == HashWrite(old(Contents()), key, fields)
    {
      var before := if key in hashes then hashes[key] else map[];
      hashes := hashes[key := before + fields];
    }

    method Del(key: string)
      requires Valid()
      modifies this
      ensures Valid() && Contents() == Delete(old(Contents()), key)
    {
      hashes := hashes - {key};
      sets := sets - {key};
    }

    method SAdd(key: string, member: string)
      requires Valid()
      modifies this
      ensures Valid() && Contents() == MemberAdded(old(Contents()), key, member)
    {
      var before := if key in sets then sets[key] else {};
      sets := sets[key := before + {member}];
    }

    method SRem(key: string, member: string)
      requires Valid()
      modifies this
      ensures Valid() && Contents() == MemberRemoved(old(Contents()), key, member)
    {
      if key in sets {
        var rest := sets[key] - {member};
        if rest == {} {
          sets := sets - {key};
        } else {
          sets := sets[key := rest];
        }
      }
    }

    method SMembers(key: string) returns (members: set<string>)
      ensures members == Members(Contents(), key)
    {
      members := if key in sets then sets[key] else {};
    }
  }
}
