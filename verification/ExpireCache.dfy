/** A least-recently-used cache whose entries expire, under every interleaving of its users and timers. */
module ExpireCache {
  import opened Options

  datatype Entry<+V> = Entry(value: V, expires: int)

  datatype Slot<+K, +V> = Slot(key: K, entry: Entry<V>)

  // ---- The bounded recency map, most recent first ---------------------------------------

  ghost predicate DistinctKeys<K, V>(lru: seq<Slot<K, V>>) {
    forall i, j :: 0 <= i < j < |lru| ==> lru[i].key != lru[j].key
  }

  function Find<K(==), V>(lru: seq<Slot<K, V>>, k: K): (r: Option<Entry<V>>)
    ensures r.Some? ==> Slot(k, r.value) in lru
    ensures r.None? ==> forall x :: x in lru ==> x.key != k
  {
    if lru == [] then None else if lru[0].key == k then Some(lru[0].entry) else Find(lru[1..], k)
  }

  function Remove<K(==), V>(lru: seq<Slot<K, V>>, k: K): (r: seq<Slot<K, V>>)
    ensures |r| <= |lru|
    ensures forall x :: x in r ==> x in lru && x.key != k
    ensures forall x :: x in lru && x.key != k ==> x in r
  {
    if lru == [] then [] else if lru[0].key == k then Remove(lru[1..], k) else [lru[0]] + Remove(lru[1..], k)
  }

  /** A lookup makes the key the most recent. */
  function Touch<K(==), V>(lru: seq<Slot<K, V>>, k: K): seq<Slot<K, V>> {
    match Find(lru, k)
    case None => lru
    case Some(e) => [Slot(k, e)] + Remove(lru, k)
  }

  /** Storing makes the key the most recent; beyond the capacity the least recent one goes. */
  function Put<K(==), V>(lru: seq<Slot<K, V>>, capacity: nat, k: K, e: Entry<V>): seq<Slot<K, V>> {
    var r := [Slot(k, e)] + Remove(lru, k);
    if |r| > capacity then r[..|r| - 1] else r
  }

  lemma {:induction false} RemoveKeepsOrder<K, V>(lru: seq<Slot<K, V>>, k: K)
    requires DistinctKeys(lru)
    ensures DistinctKeys(Remove(lru, k))
  {
    if lru != [] {
      RemoveKeepsOrder(lru[1..], k);
      var rest := Remove(lru[1..], k);
      forall j | 0 <= j < |rest| ensures rest[j].key != lru[0].key {
        assert rest[j] in lru[1..];
      }
    }
  }

  lemma {:induction false} RemoveShrinks<K, V>(lru: seq<Slot<K, V>>, x: Slot<K, V>)
    requires x in lru
    ensures |Remove(lru, x.key)| < |lru|
  {
    if lru[0].key != x.key {
      RemoveShrinks(lru[1..], x);
    }
  }

  lemma FrontKeepsOrder<K, V>(lru: seq<Slot<K, V>>, k: K, e: Entry<V>)
    requires DistinctKeys(lru)
    ensures DistinctKeys([Slot(k, e)] + Remove(lru, k))
  {
    RemoveKeepsOrder(lru, k);
    var rest := Remove(lru, k);
    forall j | 0 <= j < |rest| ensures rest[j].key != k {
      assert rest[j] in rest;
    }
  }

  ghost predicate Sound<K, V>(lru: seq<Slot<K, V>>, capacity: nat) {
    DistinctKeys(lru) && |lru| <= capacity
  }

  lemma RemoveSound<K, V>(lru: seq<Slot<K, V>>, capacity: nat, k: K)
    requires Sound(lru, capacity)
    ensures Sound(Remove(lru, k), capacity)
  {
    RemoveKeepsOrder(lru, k);
  }

  lemma TouchSound<K, V>(lru: seq<Slot<K, V>>, capacity: nat, k: K)
    requires Sound(lru, capacity)
    ensures Sound(Touch(lru, k), capacity)
    ensures forall x :: x in Touch(lru, k) ==> x in lru
  {
    if Find(lru, k).Some? {
      RemoveShrinks(lru, Slot(k, Find(lru, k).value));
      FrontKeepsOrder(lru, k, Find(lru, k).value);
    }
  }

  /** Storing keeps within the capacity and keeps the new entry. */
  lemma PutSound<K, V>(lru: seq<Slot<K, V>>, capacity: nat, k: K, e: Entry<V>)
    requires Sound(lru, capacity) && 0 < capacity
    ensures Sound(Put(lru, capacity, k, e), capacity)
    ensures Find(Put(lru, capacity, k, e), k) == Some(e)
    ensures forall x :: x in Put(lru, capacity, k, e) ==> x == Slot(k, e) || (x in lru && x.key != k)
  {
    RemoveKeepsOrder(lru, k);
    FrontKeepsOrder(lru, k, e);
  }

  /** Whether storing a key pushes out another: the cache is full and that one is the least recent. */
  ghost predicate PushedOut<K, V>(lru: seq<Slot<K, V>>, capacity: nat, k: K, other: K) {
    var rest := Remove(lru, k);
    |rest| >= capacity && rest != [] && rest[|rest| - 1].key == other
  }

  lemma {:induction false} RemoveSparesOthers<K, V>(lru: seq<Slot<K, V>>, k: K, other: K)
    requires other != k
    ensures Find(Remove(lru, k), other) == Find(lru, other)
  {
    if lru != [] {
      RemoveSparesOthers(lru[1..], k, other);
    }
  }

  lemma {:induction false} DropLastSparesOthers<K, V>(lru: seq<Slot<K, V>>, other: K)
    requires DistinctKeys(lru) && lru != []
    ensures Find(lru[..|lru| - 1], other) == if lru[|lru| - 1].key == other then None else Find(lru, other)
  {
    if |lru| > 1 {
      DropLastSparesOthers(lru[1..], other);
      assert lru[..|lru| - 1][1..] == lru[1..][..|lru[1..]| - 1];
    }
  }

  /** Storing a key leaves every other key as it was unless it is pushed out. */
  lemma PutSparesOthers<K, V>(lru: seq<Slot<K, V>>, capacity: nat, k: K, e: Entry<V>, other: K)
    requires Sound(lru, capacity) && 0 < capacity && other != k
    ensures Find(Put(lru, capacity, k, e), other)
            == if PushedOut(lru, capacity, k, other) then None else Find(lru, other)
  {
    hide Remove;
    var rest := Remove(lru, k);
    RemoveKeepsOrder(lru, k);
    RemoveSparesOthers(lru, k, other);
    var front := if |rest| >= capacity then rest[..|rest| - 1] else rest;
    assert Put(lru, capacity, k, e) == [Slot(k, e)] + front;
    assert ([Slot(k, e)] + front)[1..] == front;
    if |rest| >= capacity {
      DropLastSparesOthers(rest, other);
    }
  }

  // ---- The cache object -----------------------------------------------------------------

  /** One caller at a time; the clock reading of each operation is a parameter. */
  class LRUExpireCache<K(==), V> {
    const capacity: nat
    var lru: seq<Slot<K, V>>
    var timers: multiset<Timer<K>>

    ghost predicate Valid()
      reads this
    {
      0 < capacity && Sound(lru, capacity)
    }

    constructor (size: nat)
      requires 0 < size
      ensures Valid() && capacity == size && lru == [] && timers == multiset{}
    {
      capacity := size;
      lru := [];
      timers := multiset{};
    }

    /** The entry is there to be found until its ttl is over, when a timer is due to remove it. */
    method Add(k: K, v: V, ttl: int, now: int)
      requires Valid()
      modifies this
      ensures Valid() && lru == Put(old(lru), capacity, k, Entry(v, now + ttl))
      ensures Find(lru, k) == Some(Entry(v, now + ttl))
      ensures forall other :: other != k ==>
                Find(lru, other) == if PushedOut(old(lru), capacity, k, other) then None else Find(old(lru), other)
      ensures timers == old(timers) + multiset{Timer(k, now + ttl)}
    {
      PutSound(lru, capacity, k, Entry(v, now + ttl));
      forall other | other != k
        ensures Find(Put(lru, capacity, k, Entry(v, now + ttl)), other)
                == if PushedOut(lru, capacity, k, other) then None else Find(lru, other)
      {
        PutSparesOthers(lru, capacity, k, Entry(v, now + ttl), other);
      }
      lru := Put(lru, capacity, k, Entry(v, now + ttl));
      timers := timers + multiset{Timer(k, now + ttl)};
    }

    /** What a timer does when it is due, whoever has stored the key since. */
    method Fire(timer: Timer<K>)
      requires Valid() && timer in timers
      modifies this
      ensures Valid() && lru == Remove(old(lru), timer.key) && Find(lru, timer.key) == None
      ensures timers == old(timers) - multiset{timer}
    {
      RemoveSound(lru, capacity, timer.key);
      lru := Remove(lru, timer.key);
      timers := timers - multiset{timer};
    }

    /** An entry is returned up to and including its expiry time; afterwards it is removed. */
    method Get(k: K, now: int) returns (r: Option<V>)
      requires Valid()
      modifies this`lru
      ensures Valid()
      ensures match Find(old(lru), k)
              case None => r == None && lru == old(lru)
              case Some(e) => if now <= e.expires then r == Some(e.value) && lru == Touch(old(lru), k)
                              else r == None && lru == Remove(Touch(old(lru), k), k)
    {
      var found := Find(lru, k);
      TouchSound(lru, capacity, k);
      lru := Touch(lru, k);
      if found.None? {
        return None;
      }
      if now > found.value.expires {
        RemoveSound(lru, capacity, k);
        lru := Remove(lru, k);
        return None;
      }
      return Some(found.value.value);
    }
  }

  // ---- Every interleaving ---------------------------------------------------------------

  /** What a caller is in the middle of. */
  datatype Pending<+K, +V> =
    | Found(key: K, entry: Entry<V>, at: nat)          // looked up when the log had `at` events
    | Stale(key: K)                                    // found expired, about to remove
    | Stamped(key: K, entry: Entry<V>, ttl: int)       // expiry computed, about to store
    | Stored(key: K, ttl: int)                         // stored, about to set the timer

  datatype Timer<+K> = Timer(key: K, due: int)

  datatype Event<+K, +V> =
    | Kept(key: K, entry: Entry<V>)
    | Looked(caller: nat, key: K, entry: Entry<V>)
    | Hit(caller: nat, key: K, value: V, now: int, at: nat)
    | Miss(caller: nat, key: K)

  datatype CacheState<!K(==), +V> = CacheState(
    now: int,
    lru: seq<Slot<K, V>>,
    pending: map<nat, Pending<K, V>>,
    timers: multiset<Timer<K>>,
    log: seq<Event<K, V>>)

  datatype Move<+K, +V> =
    | Tick(elapsed: nat)
    | GetLookup(caller: nat, key: K)
    | GetCheck(caller: nat)
    | GetRemove(caller: nat)
    | AddStamp(caller: nat, key: K, value: V, ttl: int)
    | AddStore(caller: nat)
    | AddTimer(caller: nat)
    | Fire(timer: Timer<K>)

  /** One atomic step; a step that is not possible changes nothing. */
  function Next<K(==), V>(c: CacheState<K, V>, capacity: nat, m: Move<K, V>): CacheState<K, V> {
    match m
    case Tick(d) => c.(now := c.now + d)
    case GetLookup(t, k) =>
      if t in c.pending then c
      else
        (match Find(c.lru, k)
         case None => c.(log := c.log + [Miss(t, k)])
         case Some(e) => c.(lru := Touch(c.lru, k), pending := c.pending[t := Found(k, e, |c.log|)],
                            log := c.log + [Looked(t, k, e)]))
    case GetCheck(t) =>
      if t !in c.pending || !c.pending[t].Found? then c
      else
        var p := c.pending[t];
        if c.now > p.entry.expires then c.(pending := c.pending[t := Stale(p.key)])
        else c.(pending := c.pending - {t}, log := c.log + [Hit(t, p.key, p.entry.value, c.now, p.at)])
    case GetRemove(t) =>
      if t !in c.pending || !c.pending[t].Stale? then c
      else
        var k := c.pending[t].key;
        c.(lru := Remove(c.lru, k), pending := c.pending - {t}, log := c.log + [Miss(t, k)])
    case AddStamp(t, k, v, ttl) =>
      if t in c.pending then c else c.(pending := c.pending[t := Stamped(k, Entry(v, c.now + ttl), ttl)])
    case AddStore(t) =>
      if t !in c.pending || !c.pending[t].Stamped? then c
      else
        var p := c.pending[t];
        c.(lru := Put(c.lru, capacity, p.key, p.entry), pending := c.pending[t := Stored(p.key, p.ttl)],
           log := c.log + [Kept(p.key, p.entry)])
    case AddTimer(t) =>
      if t !in c.pending || !c.pending[t].Stored? then c
      else
        var p := c.pending[t];
        c.(pending := c.pending - {t}, timers := c.timers + multiset{Timer(p.key, c.now + p.ttl)})
    case Fire(timer) =>
      if timer !in c.timers || timer.due > c.now then c
      else c.(lru := Remove(c.lru, timer.key), timers := c.timers - multiset{timer})
  }

  function Play<K(==), V>(c: CacheState<K, V>, capacity: nat, moves: seq<Move<K, V>>): CacheState<K, V> {
    if moves == [] then c else Next(Play(c, capacity, moves[..|moves| - 1]), capacity, moves[|moves| - 1])
  }

  function Empty<K(==), V>(now: int): CacheState<K, V> {
    CacheState(now, [], map[], multiset{}, [])
  }

  /** The entry that the latest store of a key left, according to the log alone. */
  function LatestPut<K(==), V>(log: seq<Event<K, V>>, k: K): Option<Entry<V>> {
    if log == [] then None
    else
      var ev := log[|log| - 1];
      if ev.Kept? && ev.key == k then Some(ev.entry) else LatestPut(log[..|log| - 1], k)
  }

  /** The lookup at position `at` returned what the latest store before it had left. */
  ghost predicate LookedUpAt<K, V>(log: seq<Event<K, V>>, t: nat, k: K, e: Entry<V>, at: nat) {
    at < |log| && log[at] == Looked(t, k, e) && LatestPut(log[..at], k) == Some(e)
  }

  /** A hit answers from a lookup of the same caller and is not expired when it does. */
  ghost predicate HitJustified<K, V>(log: seq<Event<K, V>>, p: nat)
    requires p < |log| && log[p].Hit?
  {
    var ev := log[p];
    && ev.at < p && log[ev.at].Looked?
    && var e := log[ev.at].entry;
       LookedUpAt(log[..p], ev.caller, ev.key, e, ev.at) && e.value == ev.value && ev.now <= e.expires
  }

  ghost predicate Inv<K(!new), V(!new)>(c: CacheState<K, V>, capacity: nat) {
    && 0 < capacity && Sound(c.lru, capacity)
    && (forall x :: x in c.lru ==> LatestPut(c.log, x.key) == Some(x.entry))
    && (forall t :: t in c.pending && c.pending[t].Found? ==>
          LookedUpAt(c.log, t, c.pending[t].key, c.pending[t].entry, c.pending[t].at))
    && (forall p :: 0 <= p < |c.log| && c.log[p].Hit? ==> HitJustified(c.log, p))
  }

  lemma LogGrows<K(!new), V(!new)>(log: seq<Event<K, V>>, ev: Event<K, V>)
    ensures forall k :: !(ev.Kept? && ev.key == k) ==> LatestPut(log + [ev], k) == LatestPut(log, k)
    ensures ev.Kept? ==> LatestPut(log + [ev], ev.key) == Some(ev.entry)
    ensures forall t: nat, k, e, at: nat :: LookedUpAt(log, t, k, e, at) ==> LookedUpAt(log + [ev], t, k, e, at)
    ensures forall p :: 0 <= p < |log| && log[p].Hit? && HitJustified(log, p) ==> HitJustified(log + [ev], p)
  {
    var all := log + [ev];
    assert all[..|log|] == log;
    forall t: nat, k, e, at: nat | LookedUpAt(log, t, k, e, at) ensures LookedUpAt(all, t, k, e, at) {
      assert all[..at] == log[..at];
    }
    forall p | 0 <= p < |log| && log[p].Hit? && HitJustified(log, p) ensures HitJustified(all, p) {
      assert all[..p] == log[..p];
    }
  }

  lemma LookupKeepsInv<K(!new), V(!new)>(c: CacheState<K, V>, capacity: nat, t: nat, k: K)
    requires Inv(c, capacity)
    ensures Inv(Next(c, capacity, GetLookup(t, k)), capacity)
  {
    if t !in c.pending {
      var d := Next(c, capacity, GetLookup(t, k));
      var ev := d.log[|c.log|];
      LogGrows(c.log, ev);
      TouchSound(c.lru, capacity, k);
      assert d.log[..|c.log|] == c.log;
    }
  }

  lemma CheckKeepsInv<K(!new), V(!new)>(c: CacheState<K, V>, capacity: nat, t: nat)
    requires Inv(c, capacity)
    ensures Inv(Next(c, capacity, GetCheck(t)), capacity)
  {
    if t in c.pending && c.pending[t].Found? && c.now <= c.pending[t].entry.expires {
      var d := Next(c, capacity, GetCheck(t));
      LogGrows(c.log, d.log[|c.log|]);
      assert d.log[..|c.log|] == c.log;
      assert LookedUpAt(c.log, t, c.pending[t].key, c.pending[t].entry, c.pending[t].at);
    }
  }

  lemma RemoveKeepsInv<K(!new), V(!new)>(c: CacheState<K, V>, capacity: nat, t: nat)
    requires Inv(c, capacity)
    ensures Inv(Next(c, capacity, GetRemove(t)), capacity)
  {
    if t in c.pending && c.pending[t].Stale? {
      var d := Next(c, capacity, GetRemove(t));
      LogGrows(c.log, d.log[|c.log|]);
      RemoveSound(c.lru, capacity, c.pending[t].key);
    }
  }

  lemma StoreKeepsInv<K(!new), V(!new)>(c: CacheState<K, V>, capacity: nat, t: nat)
    requires Inv(c, capacity)
    ensures Inv(Next(c, capacity, AddStore(t)), capacity)
  {
    if t in c.pending && c.pending[t].Stamped? {
      var d := Next(c, capacity, AddStore(t));
      LogGrows(c.log, d.log[|c.log|]);
      PutSound(c.lru, capacity, c.pending[t].key, c.pending[t].entry);
    }
  }

  lemma NextKeepsInv<K(!new), V(!new)>(c: CacheState<K, V>, capacity: nat, m: Move<K, V>)
    requires Inv(c, capacity)
    ensures Inv(Next(c, capacity, m), capacity)
  {
    match m
    case Tick(_) =>
    case GetLookup(t, k) => LookupKeepsInv(c, capacity, t, k);
    case GetCheck(t) => CheckKeepsInv(c, capacity, t);
    case GetRemove(t) => RemoveKeepsInv(c, capacity, t);
    case AddStamp(_, _, _, _) =>
    case AddStore(t) => StoreKeepsInv(c, capacity, t);
    case AddTimer(_) =>
    case Fire(timer) => RemoveSound(c.lru, capacity, timer.key);
  }

  /**
   In every interleaving, each hit returns what the latest store of its key had left when the caller looked,
   unexpired when checked, and the cache stays within its capacity.
   */
  lemma {:induction false} EveryHitIsJustified<K(!new), V(!new)>(start: int, capacity: nat, moves: seq<Move<K, V>>)
    requires 0 < capacity
    ensures Inv(Play(Empty(start), capacity, moves), capacity)
  {
    if moves != [] {
      EveryHitIsJustified(start, capacity, moves[..|moves| - 1]);
      NextKeepsInv(Play(Empty(start), capacity, moves[..|moves| - 1]), capacity, moves[|moves| - 1]);
    }
  }

  /** Expiries, evictions, stale timers and racing removals only ever take entries away. */
  lemma OnlyStoresAdd<K(!new), V(!new)>(c: CacheState<K, V>, capacity: nat, m: Move<K, V>, x: Slot<K, V>)
    requires x in Next(c, capacity, m).lru && x !in c.lru
    ensures m.AddStore? && m.caller in c.pending && c.pending[m.caller].Stamped?
    ensures x == Slot(c.pending[m.caller].key, c.pending[m.caller].entry)
  {
  }

  // ---- Nothing is kept for ever ---------------------------------------------------------

  /** Whoever stored the key has yet to set its timer, or a timer for it is still running. */
  ghost predicate WillBeRemoved<K, V>(c: CacheState<K, V>, k: K) {
    || (exists t :: t in c.pending && c.pending[t].Stored? && c.pending[t].key == k)
    || (exists timer :: timer in c.timers && timer.key == k)
  }

  ghost predicate AllWillBeRemoved<K, V>(c: CacheState<K, V>) {
    forall x :: x in c.lru ==> WillBeRemoved(c, x.key)
  }

  /** A timer goes only together with what it was to remove. */
  lemma TimerStays<K(!new), V(!new)>(c: CacheState<K, V>, capacity: nat, m: Move<K, V>, timer: Timer<K>, x: Slot<K, V>)
    requires timer in c.timers && x in Next(c, capacity, m).lru && x.key == timer.key
    ensures timer in Next(c, capacity, m).timers
  {
    hide Touch, Put, Find;
  }

  lemma StorerStays<K(!new), V(!new)>(c: CacheState<K, V>, capacity: nat, m: Move<K, V>, t: nat)
    requires t in c.pending && c.pending[t].Stored?
    ensures WillBeRemoved(Next(c, capacity, m), c.pending[t].key)
  {
    hide Touch, Put, Find, Remove;
    var d := Next(c, capacity, m);
    if m == AddTimer(t) {
      assert Timer(c.pending[t].key, c.now + c.pending[t].ttl) in d.timers;
    } else {
      assert t in d.pending && d.pending[t] == c.pending[t];
    }
  }

  lemma NextKeepsTimers<K(!new), V(!new)>(c: CacheState<K, V>, capacity: nat, m: Move<K, V>)
    requires AllWillBeRemoved(c)
    ensures AllWillBeRemoved(Next(c, capacity, m))
  {
    var d := Next(c, capacity, m);
    forall x | x in d.lru ensures WillBeRemoved(d, x.key) {
      if x !in c.lru {
        OnlyStoresAdd(c, capacity, m, x);
        assert d.pending[m.caller] == Stored(x.key, c.pending[m.caller].ttl);
      } else if timer :| timer in c.timers && timer.key == x.key {
        TimerStays(c, capacity, m, timer, x);
      } else {
        var t :| t in c.pending && c.pending[t].Stored? && c.pending[t].key == x.key;
        StorerStays(c, capacity, m, t);
      }
    }
  }

  /** Once no timer runs and no caller is at work, the cache is empty. */
  lemma {:induction false} QuietCacheIsEmpty<K(!new), V(!new)>(start: int, capacity: nat, moves: seq<Move<K, V>>)
    ensures var c := Play(Empty(start), capacity, moves);
            AllWillBeRemoved(c) && (c.pending == map[] && c.timers == multiset{} ==> c.lru == [])
  {
    if moves != [] {
      QuietCacheIsEmpty(start, capacity, moves[..|moves| - 1]);
      NextKeepsTimers(Play(Empty(start), capacity, moves[..|moves| - 1]), capacity, moves[|moves| - 1]);
    }
    var c := Play(Empty(start), capacity, moves);
    if c.lru != [] {
      assert c.lru[0] in c.lru;
    }
  }

  // ---- The least recently used goes first -----------------------------------------------

  /** When the key was last stored or found, counted in events of the log; 0 if never. */
  function UsedAt<K(==), V>(log: seq<Event<K, V>>, k: K): (n: nat)
    ensures n <= |log|
  {
    if log == [] then 0
    else
      var ev := log[|log| - 1];
      if (ev.Kept? || ev.Looked?) && ev.key == k then |log| else UsedAt(log[..|log| - 1], k)
  }

  ghost predicate ByRecency<K, V>(lru: seq<Slot<K, V>>, log: seq<Event<K, V>>) {
    forall i, j :: 0 <= i < j < |lru| ==> UsedAt(log, lru[i].key) > UsedAt(log, lru[j].key)
  }

  lemma UsedNow<K(!new), V(!new)>(log: seq<Event<K, V>>, ev: Event<K, V>, k: K)
    ensures UsedAt(log + [ev], k) == if (ev.Kept? || ev.Looked?) && ev.key == k then |log| + 1 else UsedAt(log, k)
  {
    assert (log + [ev])[..|log|] == log;
  }

  lemma {:induction false} RemoveKeepsRecency<K(!new), V(!new)>(lru: seq<Slot<K, V>>, k: K, log: seq<Event<K, V>>)
    requires ByRecency(lru, log)
    ensures ByRecency(Remove(lru, k), log)
  {
    hide UsedAt;
    if lru != [] {
      RemoveKeepsRecency(lru[1..], k, log);
      var rest := Remove(lru[1..], k);
      forall j | 0 <= j < |rest| ensures UsedAt(log, lru[0].key) > UsedAt(log, rest[j].key) {
        assert rest[j] in lru[1..];
      }
    }
  }

  /** An event that uses no other key leaves the order of the others. */
  lemma SameRecency<K(!new), V(!new)>(lru: seq<Slot<K, V>>, log: seq<Event<K, V>>, ev: Event<K, V>)
    requires ByRecency(lru, log)
    requires ev.Kept? || ev.Looked? ==> forall x :: x in lru ==> x.key != ev.key
    ensures ByRecency(lru, log + [ev])
  {
    hide UsedAt;
    forall i, j | 0 <= i < j < |lru| ensures UsedAt(log + [ev], lru[i].key) > UsedAt(log + [ev], lru[j].key) {
      assert lru[i] in lru && lru[j] in lru;
      UsedNow(log, ev, lru[i].key);
      UsedNow(log, ev, lru[j].key);
    }
  }

  /** The key just used goes to the front. */
  lemma FrontIsMostRecent<K(!new), V(!new)>(lru: seq<Slot<K, V>>, k: K, e: Entry<V>, log: seq<Event<K, V>>,
                                            ev: Event<K, V>)
    requires ByRecency(lru, log) && (ev.Kept? || ev.Looked?) && ev.key == k
    ensures ByRecency([Slot(k, e)] + Remove(lru, k), log + [ev])
  {
    hide UsedAt, Remove;
    var rest := Remove(lru, k);
    RemoveKeepsRecency(lru, k, log);
    SameRecency(rest, log, ev);
    UsedNow(log, ev, k);
    forall j | 0 <= j < |rest| ensures UsedAt(log + [ev], k) > UsedAt(log + [ev], rest[j].key) {
      assert rest[j] in rest;
      UsedNow(log, ev, rest[j].key);
    }
  }

  lemma NextKeepsRecency<K(!new), V(!new)>(c: CacheState<K, V>, capacity: nat, m: Move<K, V>)
    requires ByRecency(c.lru, c.log)
    ensures ByRecency(Next(c, capacity, m).lru, Next(c, capacity, m).log)
  {
    hide UsedAt, Remove, Find;
    match m
    case Tick(_) =>
    case GetLookup(t, k) =>
      if t !in c.pending {
        match Find(c.lru, k)
        case None => SameRecency(c.lru, c.log, Miss(t, k));
        case Some(e) => FrontIsMostRecent(c.lru, k, e, c.log, Looked(t, k, e));
      }
    case GetCheck(t) =>
      if t in c.pending && c.pending[t].Found? && c.now <= c.pending[t].entry.expires {
        var p := c.pending[t];
        SameRecency(c.lru, c.log, Hit(t, p.key, p.entry.value, c.now, p.at));
      }
    case GetRemove(t) =>
      if t in c.pending && c.pending[t].Stale? {
        RemoveKeepsRecency(c.lru, c.pending[t].key, c.log);
        SameRecency(Remove(c.lru, c.pending[t].key), c.log, Miss(t, c.pending[t].key));
      }
    case AddStamp(_, _, _, _) =>
    case AddStore(t) =>
      if t in c.pending && c.pending[t].Stamped? {
        FrontIsMostRecent(c.lru, c.pending[t].key, c.pending[t].entry, c.log,
                          Kept(c.pending[t].key, c.pending[t].entry));
      }
    case AddTimer(_) =>
    case Fire(timer) => RemoveKeepsRecency(c.lru, timer.key, c.log);
  }

  /** In every interleaving the entries stand in the order of their last use. */
  lemma {:induction false} EveryRunByRecency<K(!new), V(!new)>(start: int, capacity: nat, moves: seq<Move<K, V>>)
    ensures var c := Play(Empty(start), capacity, moves); ByRecency(c.lru, c.log)
  {
    if moves != [] {
      EveryRunByRecency(start, capacity, moves[..|moves| - 1]);
      NextKeepsRecency(Play(Empty(start), capacity, moves[..|moves| - 1]), capacity, moves[|moves| - 1]);
    }
  }

  /** So what a store pushes out was used before everything that stays, and it pushes out at most one. */
  lemma LeastRecentGoes<K(!new), V(!new)>(start: int, capacity: nat, moves: seq<Move<K, V>>, t: nat, x: Slot<K, V>,
                                          y: Slot<K, V>)
    requires var c := Play(Empty(start), capacity, moves);
             && 0 < capacity && t in c.pending && c.pending[t].Stamped? && x.key != c.pending[t].key
             && x in c.lru && x !in Next(c, capacity, AddStore(t)).lru && y in Next(c, capacity, AddStore(t)).lru
    ensures var c := Play(Empty(start), capacity, moves);
            var d := Next(c, capacity, AddStore(t));
            UsedAt(c.log, x.key) < UsedAt(d.log, y.key) && |c.lru| == capacity
  {
    hide UsedAt, Remove, Play;
    var c := Play(Empty(start), capacity, moves);
    var d := Next(c, capacity, AddStore(t));
    EveryRunByRecency(start, capacity, moves);
    EveryHitIsJustified(start, capacity, moves);
    NextKeepsRecency(c, capacity, AddStore(t));
    PushedOutIsLast(c, capacity, t, x, y);
  }

  lemma AllButLastStay<K(!new), V(!new)>(rest: seq<Slot<K, V>>, first: Slot<K, V>)
    ensures var all := [first] + rest;
            forall i :: 0 <= i < |rest| - 1 ==> rest[i] in all[..|all| - 1]
  {
    var all := [first] + rest;
    forall i | 0 <= i < |rest| - 1 ensures rest[i] in all[..|all| - 1] {
      assert all[..|all| - 1][i + 1] == rest[i];
    }
  }

  lemma PushedOutIsLast<K(!new), V(!new)>(c: CacheState<K, V>, capacity: nat, t: nat, x: Slot<K, V>, y: Slot<K, V>)
    requires 0 < capacity && t in c.pending && c.pending[t].Stamped? && x.key != c.pending[t].key
    requires ByRecency(c.lru, c.log) && Sound(c.lru, capacity)
    requires x in c.lru && x !in Next(c, capacity, AddStore(t)).lru && y in Next(c, capacity, AddStore(t)).lru
    ensures UsedAt(c.log, x.key) < UsedAt(Next(c, capacity, AddStore(t)).log, y.key) && |c.lru| == capacity
  {
    hide UsedAt, Remove;
    var k, e := c.pending[t].key, c.pending[t].entry;
    var rest, ev := Remove(c.lru, k), Kept(k, e);
    RemoveKeepsRecency(c.lru, k, c.log);
    assert x in rest && |rest| == capacity;
    var d := Next(c, capacity, AddStore(t));
    var at :| 0 <= at < |rest| && rest[at] == x;
    AllButLastStay(rest, Slot(k, e));
    UsedNow(c.log, ev, y.key);
    if y.key != k {
      var i :| 0 <= i < |rest| - 1 && rest[i] == y;
    }
  }

  // ---- No timer is early ----------------------------------------------------------------

  /** A store of the key is on record that has expired by then. */
  ghost predicate KeptTill<K, V>(log: seq<Event<K, V>>, k: K, due: int) {
    exists p :: 0 <= p < |log| && log[p].Kept? && log[p].key == k && log[p].entry.expires <= due
  }

  ghost predicate TimersLate<K, V>(c: CacheState<K, V>) {
    && (forall t :: t in c.pending && c.pending[t].Stamped? ==> c.pending[t].entry.expires <= c.now + c.pending[t].ttl)
    && (forall t :: t in c.pending && c.pending[t].Stored? ==>
          KeptTill(c.log, c.pending[t].key, c.now + c.pending[t].ttl))
    && (forall timer :: timer in c.timers ==> KeptTill(c.log, timer.key, timer.due))
  }

  lemma KeptTillLater<K(!new), V(!new)>(log: seq<Event<K, V>>, k: K, due: int, more: seq<Event<K, V>>, later: int)
    requires KeptTill(log, k, due) && log <= more && due <= later
    ensures KeptTill(more, k, later)
  {
    var p :| 0 <= p < |log| && log[p].Kept? && log[p].key == k && log[p].entry.expires <= due;
    assert more[p] == log[p];
  }

  /** Who has just stored had it stamped, or had stored before. */
  lemma StoredFrom<K(!new), V(!new)>(c: CacheState<K, V>, capacity: nat, m: Move<K, V>, t: nat)
    requires var d := Next(c, capacity, m); t in d.pending && d.pending[t].Stored?
    ensures var d := Next(c, capacity, m);
            && t in c.pending && c.log <= d.log && c.now <= d.now
            && (|| c.pending[t] == d.pending[t]
                || (&& m == AddStore(t) && c.pending[t].Stamped? && d.now == c.now
                    && d.pending[t] == Stored(c.pending[t].key, c.pending[t].ttl)
                    && d.log == c.log + [Kept(c.pending[t].key, c.pending[t].entry)]))
  {
    hide Touch, Put, Remove, Find;
  }

  /** A timer was there before, or comes from who had stored. */
  lemma TimerFrom<K(!new), V(!new)>(c: CacheState<K, V>, capacity: nat, m: Move<K, V>, timer: Timer<K>)
    requires timer in Next(c, capacity, m).timers
    ensures c.log <= Next(c, capacity, m).log
    ensures || timer in c.timers
            || (&& m.AddTimer? && m.caller in c.pending && c.pending[m.caller].Stored?
                && timer == Timer(c.pending[m.caller].key, c.now + c.pending[m.caller].ttl))
  {
    hide Touch, Put, Remove, Find;
  }

  lemma StampedFrom<K(!new), V(!new)>(c: CacheState<K, V>, capacity: nat, m: Move<K, V>, t: nat)
    requires TimersLate(c)
    requires var d := Next(c, capacity, m); t in d.pending && d.pending[t].Stamped?
    ensures var d := Next(c, capacity, m); d.pending[t].entry.expires <= d.now + d.pending[t].ttl
  {
    hide Touch, Put, Remove, Find, KeptTill;
  }

  lemma NextKeepsTimersLate<K(!new), V(!new)>(c: CacheState<K, V>, capacity: nat, m: Move<K, V>)
    requires TimersLate(c)
    ensures TimersLate(Next(c, capacity, m))
  {
    hide Next, KeptTill;
    var d := Next(c, capacity, m);
    forall t | t in d.pending && d.pending[t].Stamped?
      ensures d.pending[t].entry.expires <= d.now + d.pending[t].ttl
    {
      StampedFrom(c, capacity, m, t);
    }
    forall t | t in d.pending && d.pending[t].Stored?
      ensures KeptTill(d.log, d.pending[t].key, d.now + d.pending[t].ttl)
    {
      StoredFrom(c, capacity, m, t);
      if c.pending[t] == d.pending[t] {
        KeptTillLater(c.log, c.pending[t].key, c.now + c.pending[t].ttl, d.log, d.now + d.pending[t].ttl);
      } else {
        JustKept(c.log, c.pending[t].key, c.pending[t].entry, c.now + c.pending[t].ttl);
      }
    }
    forall timer | timer in d.timers ensures KeptTill(d.log, timer.key, timer.due) {
      TimerFrom(c, capacity, m, timer);
      if timer in c.timers {
        KeptTillLater(c.log, timer.key, timer.due, d.log, timer.due);
      } else {
        var p := c.pending[m.caller];
        KeptTillLater(c.log, p.key, c.now + p.ttl, d.log, timer.due);
      }
    }
  }

  lemma JustKept<K(!new), V(!new)>(log: seq<Event<K, V>>, k: K, e: Entry<V>, due: int)
    requires e.expires <= due
    ensures KeptTill(log + [Kept(k, e)], k, due)
  {
    assert (log + [Kept(k, e)])[|log|] == Kept(k, e);
  }

  /** In every interleaving a timer that fires was set for a store of its key that has expired. */
  lemma {:induction false} NoTimerIsEarly<K(!new), V(!new)>(start: int, capacity: nat, moves: seq<Move<K, V>>)
    ensures var c := Play(Empty(start), capacity, moves);
            && TimersLate(c)
            && forall timer :: Next(c, capacity, Fire(timer)) != c ==> KeptTill(c.log, timer.key, c.now)
  {
    hide KeptTill, Remove;
    if moves != [] {
      NoTimerIsEarly(start, capacity, moves[..|moves| - 1]);
      NextKeepsTimersLate(Play(Empty(start), capacity, moves[..|moves| - 1]), capacity, moves[|moves| - 1]);
    }
    var c := Play(Empty(start), capacity, moves);
    forall timer | Next(c, capacity, Fire(timer)) != c ensures KeptTill(c.log, timer.key, c.now) {
      KeptTillLater(c.log, timer.key, timer.due, c.log, c.now);
    }
  }
}
