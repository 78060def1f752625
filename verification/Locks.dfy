/** The keyed locks of internal/service/service.go: one mutex per key, made on first
    use and never removed. */
module Locks {

  class Mutex {
    var held: bool
    /** The key the mutex was made for. */
    ghost const owner: string

    constructor (ghost owner: string)
      ensures !held && this.owner == owner
    {
      held := false;
      this.owner := owner;
    }

    /** Locking waits for the holder; a caller that holds it already waits forever. */
    method Lock()
      requires !held
      modifies this
      ensures held
    {
      held := true;
    }

    method Unlock()
      requires held
      modifies this
      ensures !held
    {
      held := false;
    }
  }

  class KeyedLocks {
    var m: map<string, Mutex>
    ghost var Repr: set<Mutex>

    ghost predicate Valid()
      reads this, Repr
    {
      forall k :: k in m ==> m[k] in Repr && m[k].owner == k
    }

    /** The keys that are locked. */
    ghost function Held(): set<string>
      reads this, Repr
      requires Valid()
    {
      set k | k in m && m[k].held
    }

    constructor ()
      ensures Valid() && m == map[] && Repr == {} && Held() == {}
    {
      m, Repr := map[], {};
    }

    /** Takes the mutex of a key, making it if there is none: a key keeps its mutex,
        and no other key is touched. */
    method Lock(key: string) returns (l: Mutex)
      requires Valid() && key !in Held()
      modifies this, Repr
      ensures Valid() && fresh(Repr - old(Repr)) && old(Repr) <= Repr
      ensures m.Keys == old(m.Keys) + {key} && forall k :: k in old(m) ==> m[k] == old(m)[k]
      ensures l == m[key] && Held() == old(Held()) + {key}
    {
      if key !in m {
        var made := new Mutex(key);
        m, Repr := m[key := made], Repr + {made};
      }
      l := m[key];
      l.Lock();
    }

    /** The unlock that Lock hands back. */
    method Unlock(key: string, l: Mutex)
      requires Valid() && key in m && l == m[key] && l.held
      modifies l
      ensures Valid() && m == old(m) && Held() == old(Held()) - {key}
    {
      l.Unlock();
    }
  }
}
