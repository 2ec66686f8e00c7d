/** The cache's atomic key operations, with expiry. */
module KeyStore {
  import opened Base

  datatype Entry<V> = Entry(value: V, expires: nat)

  type Store<V> = map<string, Entry<V>>

  /** A key answers until its time to live has run out. */
  function Get<V>(s: Store<V>, now: nat, key: string): Option<V> {
    if key in s && now < s[key].expires then Some(s[key].value) else None
  }

  function SetWithTtl<V>(s: Store<V>, now: nat, key: string, value: V, ttl: nat): Store<V> {
    s[key := Entry(value, now + ttl)]
  }

  function Del<V>(s: Store<V>, key: string): Store<V> { s - {key} }

  /** SET NX: nothing happens when something live is there. */
  function SetNx<V>(s: Store<V>, now: nat, key: string, value: V, ttl: nat): Store<V> {
    if Get(s, now, key).None? then SetWithTtl(s, now, key, value, ttl) else s
  }

  /** Of two reservations of a key the second succeeds exactly when the first one's time to live has
      run out, or, if the first failed too, the time of whatever it found there. */
  lemma SecondReservation<V>(s: Store<V>, now: nat, later: nat, key: string, value: V, ttl: nat)
    requires now <= later
    ensures var after := SetNx(s, now, key, value, ttl);
      Get(after, later, key).None? <==>
      later >= (if Get(s, now, key).None? then now + ttl else s[key].expires)
  {
  }

  /** The keys that answer, with what they answer. */
  ghost function Answering<V>(s: Store<V>, now: nat): (live: map<string, V>)
    ensures forall key :: Get(s, now, key) == if key in live then Some(live[key]) else None
  {
    map key | key in s && now < s[key].expires :: s[key].value
  }

  class Cache<V> {
    var entries: Store<V>
    var now: nat

    /** The cache as its callers see it: a map without times. */
    ghost function Live(): map<string, V>
      reads this
    {
      Answering(entries, now)
    }

    constructor ()
      ensures Live() == map[] && entries == map[] && now == 0
    {
      entries, now := map[], 0;
    }

    /** Keys only disappear as time passes; one with `secs` or less left is gone. */
    method Tick(secs: nat)
      modifies this`now
      ensures now == old(now) + secs
      ensures forall key :: key in Live() <==> key in old(Live()) && entries[key].expires > now
      ensures forall key :: key in Live() ==> Live()[key] == old(Live())[key]
    {
      now := now + secs;
    }

    method Read(key: string) returns (value: Option<V>)
      ensures value == if key in Live() then Some(Live()[key]) else None
    {
      value := if key in entries && now < entries[key].expires then Some(entries[key].value) else None;
    }

    /** The key answers the value, unless the time to live is zero. */
    method Write(key: string, value: V, ttl: nat)
      modifies this`entries
      ensures Live() == if ttl > 0 then old(Live())[key := value] else old(Live()) - {key}
      ensures entries == SetWithTtl(old(entries), now, key, value, ttl)
    {
      entries := entries[key := Entry(value, now + ttl)];
    }

    /** Succeeds exactly when the key answers nothing, and leaves what answers alone. */
    method Reserve(key: string, value: V, ttl: nat) returns (reserved: bool)
      modifies this`entries
      ensures reserved <==> key !in old(Live())
      ensures Live() == if reserved && ttl > 0 then old(Live())[key := value] else old(Live())
      ensures entries == SetNx(old(entries), now, key, value, ttl)
    {
      reserved := !(key in entries && now < entries[key].expires);
      if reserved {
        entries := entries[key := Entry(value, now + ttl)];
      }
    }

    /** The key answers nothing any more, every other key what it did. */
    method Remove(key: string)
      modifies this`entries
      ensures Live() == old(Live()) - {key}
      ensures entries == Del(old(entries), key)
    {
      entries := entries - {key};
    }

    /** GETDEL: of several callers only the first gets the value. */
    method Take(key: string) returns (value: Option<V>)
      modifies this`entries
      ensures value == if key in old(Live()) then Some(old(Live())[key]) else None
      ensures Live() == old(Live()) - {key}
    {
      value := Read(key);
      entries := entries - {key};
    }
  }
}
