/** The cache of serialised answers (CBERCacheManager): a size-limited map whose entries
    expire, and whose oldest entries are evicted. */
module BerCache {
  import opened Bytes
  import opened Wrappers

  type Octets = seq<byte>

  /** Stored data and the time of the last insertion or hit, in seconds. */
  datatype Entry = Entry(data: Octets, used: int)

  type Entries = map<Octets, Entry>

  // ---------------------------------------------------------------- size accounting

  ghost function Total(m: Entries): nat {
    if m == map[] then 0 else
      var k :| k in m;
      |m[k].data| + Total(m - {k})
  }

  /** The sum does not depend on which entry is taken first. */
  lemma {:induction false} TotalRemove(m: Entries, k: Octets)
    requires k in m
    ensures Total(m) == |m[k].data| + Total(m - {k})
    decreases |m|
  {
    var c :| c in m && Total(m) == |m[c].data| + Total(m - {c});
    if c != k {
      TotalRemove(m - {c}, k);
      TotalRemove(m - {k}, c);
      assert m - {c} - {k} == m - {k} - {c};
    }
  }

  lemma TotalPut(m: Entries, k: Octets, e: Entry)
    ensures Total(m[k := e]) == Total(m - {k}) + |e.data|
    ensures k in m ==> Total(m[k := e]) == Total(m) - |m[k].data| + |e.data|
    ensures k !in m ==> Total(m[k := e]) == Total(m) + |e.data|
  {
    TotalRemove(m[k := e], k);
    assert m[k := e] - {k} == m - {k};
    if k in m { TotalRemove(m, k); } else { assert m - {k} == m; }
  }

  /** A sub-map stores no more bytes. */
  lemma {:induction false} TotalOfPart(part: Entries, m: Entries)
    requires forall k | k in part :: k in m && |part[k].data| <= |m[k].data|
    ensures Total(part) <= Total(m)
    decreases |part|
  {
    if part != map[] {
      var k :| k in part;
      TotalRemove(part, k);
      TotalRemove(m, k);
      TotalOfPart(part - {k}, m - {k});
    }
  }

  // ---------------------------------------------------------------- expiry

  /** The age, cast to an unsigned 64-bit number, exceeds the lifetime. A time in the
      future casts to a huge age. */
  predicate Expired(now: int, used: int, lifetime: nat) {
    (now - used) % U64 > lifetime
  }

  function Fresh(m: Entries, now: int, lifetime: nat): Entries {
    map k | k in m && !Expired(now, m[k].used, lifetime) :: m[k]
  }

  // ---------------------------------------------------------------- eviction

  ghost predicate Removed(before: Entries, after: Entries, k: Octets) {
    k in before && k !in after
  }

  /** The newest of the removed entries had to go: with it the limit is still passed. */
  ghost predicate LastRemoved(before: Entries, after: Entries, most: nat, k: Octets) {
    && Removed(before, after, k)
    && (forall r | Removed(before, after, r) :: before[r].used <= before[k].used)
    && Total(after) + |before[k].data| > most
  }

  /** What eviction leaves: a part of the entries, within the limit, from which nothing was
      removed that is newer than a survivor, and nothing that did not need to be. */
  ghost predicate Evicted(before: Entries, after: Entries, most: nat) {
    && after.Keys <= before.Keys
    && (forall k | k in after :: after[k] == before[k])
    && Total(after) <= most
    && (forall r, s | Removed(before, after, r) && s in after :: before[r].used <= after[s].used)
    && (after == before || exists k :: LastRemoved(before, after, most, k))
  }

  lemma NothingEvictedWithinLimit(before: Entries, after: Entries, most: nat)
    requires Evicted(before, after, most) && Total(before) <= most
    ensures after == before
  {
    if after != before {
      var k :| LastRemoved(before, after, most, k);
      TotalRemove(before, k);
      TotalOfPart(after, before - {k});
    }
  }

  /** When no two entries share a time, that description leaves one answer. */
  lemma EvictionIsDetermined(before: Entries, one: Entries, two: Entries, most: nat)
    requires Evicted(before, one, most) && Evicted(before, two, most)
    requires Distinct(before)
    ensures one == two
  {
    NoneKeepsMore(before, one, two, most);
    NoneKeepsMore(before, two, one, most);
  }

  ghost predicate Distinct(m: Entries) {
    forall a, b | a in m && b in m && m[a].used == m[b].used :: a == b
  }

  lemma NoneKeepsMore(before: Entries, one: Entries, two: Entries, most: nat)
    requires Evicted(before, one, most) && Evicted(before, two, most) && Distinct(before)
    ensures one.Keys <= two.Keys
  {
    forall k | k in one ensures k in two {
      if k !in two {
        assert Removed(before, two, k);
        var last :| LastRemoved(before, two, most, last);
        KeepingMoreCosts(before, one, two, most, k, last);
        assert false;
      }
    }
  }

  lemma KeepingMoreCosts(before: Entries, one: Entries, two: Entries, most: nat, k: Octets, last: Octets)
    requires Evicted(before, one, most) && Evicted(before, two, most) && Distinct(before)
    requires k in one && Removed(before, two, k) && LastRemoved(before, two, most, last)
    ensures Total(one) >= Total(two) + |before[last].data|
  {
    LastRemovedIsKept(before, one, two, most, k, last);
    forall s | s in two ensures s in one { SurvivorIsKept(before, one, two, most, k, s); }
    TotalRemove(one, last);
    TotalOfPart(two, one - {last});
  }

  lemma SurvivorIsKept(before: Entries, one: Entries, two: Entries, most: nat, k: Octets, s: Octets)
    requires Evicted(before, one, most) && Evicted(before, two, most) && Distinct(before)
    requires k in one && Removed(before, two, k) && s in two
    ensures s in one
  {
    if s !in one { assert Removed(before, one, s); }
  }

  lemma LastRemovedIsKept(before: Entries, one: Entries, two: Entries, most: nat, k: Octets, last: Octets)
    requires Evicted(before, one, most) && Distinct(before)
    requires k in one && Removed(before, two, k) && LastRemoved(before, two, most, last)
    ensures last in one
  {
    if last !in one { assert Removed(before, one, last); }
  }

  /** When the entry just stored is newer than all others, it outlives its own insertion
      exactly when it fits; one that does not fit takes every other entry with it. */
  lemma NewestIsKeptIffItFits(before: Entries, after: Entries, most: nat, key: Octets)
    requires Evicted(before, after, most) && key in before
    requires forall k | k in before && k != key :: before[k].used < before[key].used
    ensures key in after <==> |before[key].data| <= most
    ensures key !in after ==> after == map[]
  {
    if key in after {
      TotalRemove(after, key);
    } else {
      assert Removed(before, after, key);
      assert after.Keys == {};
      var k :| LastRemoved(before, after, most, k);
      assert k == key;
    }
  }

  // ---------------------------------------------------------------- runs

  /** A public call, the clock readings it made and, for a lookup, what it returned. */
  datatype Event =
    | Insert(key: Octets, data: Octets, now: int)
    | Lookup(key: Octets, now: int, touch: int, hit: Option<Octets>)
    | Maintain(now: int)

  predicate ValidKey(key: Octets) {
    |key| == 32
  }

  /** One call, over the stored entries. */
  ghost predicate Next(s: Entries, e: Event, s': Entries, lifetime: nat, most: nat) {
    match e
    case Insert(key, data, now) =>
      if ValidKey(key) then Evicted(s[key := Entry(data, now)], s', most) else s' == s
    case Lookup(key, now, touch, hit) =>
      if ValidKey(key) then exists m :: Answers(s, m, e, s', lifetime, most) else s' == s && hit == None
    case Maintain(now) =>
      Evicted(Fresh(s, now, lifetime), s', most)
  }

  /** A lookup maintains the cache, leaving `m`, and then reads it. */
  ghost predicate Answers(s: Entries, m: Entries, e: Event, s': Entries, lifetime: nat, most: nat)
    requires e.Lookup?
  {
    && Evicted(Fresh(s, e.now, lifetime), m, most)
    && if e.key in m
       then e.hit == Some(m[e.key].data) && s' == m[e.key := Entry(m[e.key].data, e.touch)]
       else e.hit == None && s' == m
  }

  /** The calls made so far, the latest outermost. */
  datatype Run = Start | Then(before: Run, event: Event)

  /** The run leads from the empty cache to `s`. */
  ghost predicate Reaches(run: Run, s: Entries, lifetime: nat, most: nat) {
    match run
    case Start => s == map[]
    case Then(before, e) => exists p :: Reaches(before, p, lifetime, most) && Next(p, e, s, lifetime, most)
  }

  ghost predicate Within(s: Entries, most: nat) {
    Total(s) <= most && forall k | k in s :: ValidKey(k)
  }

  lemma NextWithin(s: Entries, e: Event, s': Entries, lifetime: nat, most: nat)
    requires Within(s, most) && Next(s, e, s', lifetime, most)
    ensures Within(s', most)
  {
    if e.Lookup? && ValidKey(e.key) {
      var m: Entries :| Answers(s, m, e, s', lifetime, most);
      if e.key in m { TotalPut(m, e.key, Entry(m[e.key].data, e.touch)); }
    }
  }

  /** After every public call the stored bytes are within the limit. */
  lemma {:induction false} RunWithin(run: Run, s: Entries, lifetime: nat, most: nat)
    requires Reaches(run, s, lifetime, most)
    ensures Within(s, most)
  {
    if run.Then? {
      var p: Entries :| Reaches(run.before, p, lifetime, most) && Next(p, run.event, s, lifetime, most);
      RunWithin(run.before, p, lifetime, most);
      NextWithin(p, run.event, s, lifetime, most);
    }
  }

  /** The unlimited map that never forgets: the data last inserted under each key, and when
      it was last inserted or hit. */
  function Plain(run: Run): Entries {
    match run
    case Start => map[]
    case Then(before, e) => PlainNext(Plain(before), e)
  }

  function PlainNext(m: Entries, e: Event): Entries {
    match e
    case Insert(key, data, now) => if ValidKey(key) then m[key := Entry(data, now)] else m
    case Lookup(key, _, touch, hit) => if hit.Some? && key in m then m[key := Entry(m[key].data, touch)] else m
    case Maintain(_) => m
  }

  ghost predicate PartOf(s: Entries, m: Entries) {
    forall k | k in s :: k in m && s[k] == m[k]
  }

  /** The cache refines the plain map: what it still stores is what that map holds. */
  lemma {:induction false} CacheIsPartOfPlain(run: Run, s: Entries, lifetime: nat, most: nat)
    requires Reaches(run, s, lifetime, most)
    ensures PartOf(s, Plain(run))
  {
    if run.Then? {
      var p: Entries :| Reaches(run.before, p, lifetime, most) && Next(p, run.event, s, lifetime, most);
      CacheIsPartOfPlain(run.before, p, lifetime, most);
      StepKeepsPart(p, run.event, s, Plain(run.before), lifetime, most);
    }
  }

  lemma StepKeepsPart(p: Entries, e: Event, s: Entries, m: Entries, lifetime: nat, most: nat)
    requires PartOf(p, m) && Next(p, e, s, lifetime, most)
    ensures PartOf(s, PlainNext(m, e))
  {
    if e.Lookup? && ValidKey(e.key) {
      var a: Entries :| Answers(p, a, e, s, lifetime, most);
    }
  }

  /** The latest clock reading of a call. */
  function Clock(e: Event): int {
    if e.Lookup? then e.touch else e.now
  }

  /** The clock never runs backwards, and has not passed `now`. */
  ghost predicate Monotone(run: Run, now: int) {
    match run
    case Start => true
    case Then(before, e) => Monotone(before, e.now) && e.now <= Clock(e) <= now
  }

  lemma {:induction false} TimesArePast(run: Run, now: int)
    requires Monotone(run, now)
    ensures forall k | k in Plain(run) :: Plain(run)[k].used <= now
  {
    if run.Then? { TimesArePast(run.before, run.event.now); }
  }

  /** With a clock that never runs backwards a hit returns the data last inserted under its
      key, last inserted or hit no longer ago than the lifetime. */
  lemma HitIsLatestAndFresh(run: Run, s: Entries, lookup: Event, s': Entries, lifetime: nat, most: nat)
    requires Reaches(run, s, lifetime, most) && Next(s, lookup, s', lifetime, most)
    requires lookup.Lookup? && lookup.hit.Some? && Monotone(run, lookup.now)
    ensures lookup.key in Plain(run) && lookup.hit == Some(Plain(run)[lookup.key].data)
    ensures var idle := lookup.now - Plain(run)[lookup.key].used; 0 <= idle && (idle < U64 ==> idle <= lifetime)
  {
    CacheIsPartOfPlain(run, s, lifetime, most);
    HitComesFromFresh(s, lookup, s', lifetime, most);
    TimesArePast(run, lookup.now);
    IdleWhenFresh(lookup.now, s[lookup.key].used, lifetime);
  }

  lemma HitComesFromFresh(s: Entries, lookup: Event, s': Entries, lifetime: nat, most: nat)
    requires Next(s, lookup, s', lifetime, most) && lookup.Lookup? && lookup.hit.Some?
    ensures lookup.key in s && lookup.hit == Some(s[lookup.key].data)
    ensures !Expired(lookup.now, s[lookup.key].used, lifetime)
  {
    var m: Entries :| Answers(s, m, lookup, s', lifetime, most);
  }

  /** At every point of the run the plain map is within the limit, and no clock reading
      precedes `begin`. */
  ghost predicate Roomy(run: Run, most: nat, begin: int) {
    && Total(Plain(run)) <= most
    && (run.Then? ==> Roomy(run.before, most, begin) && begin <= run.event.now)
  }

  /** Every plain entry young enough at `now` is still stored. */
  ghost predicate KeepsYoung(s: Entries, m: Entries, now: int, lifetime: nat) {
    forall k | k in m && now - m[k].used <= lifetime :: k in s
  }

  /** While everything fits, nothing young is ever lost. */
  lemma {:induction false} RoomyKeepsYoung(run: Run, s: Entries, lifetime: nat, most: nat, begin: int, now: int)
    requires Reaches(run, s, lifetime, most)
    requires Roomy(run, most, begin) && Monotone(run, now) && now < begin + U64
    ensures KeepsYoung(s, Plain(run), now, lifetime)
  {
    if run.Then? {
      var before, e := run.before, run.event;
      var p: Entries :| Reaches(before, p, lifetime, most) && Next(p, e, s, lifetime, most);
      RoomyKeepsYoung(before, p, lifetime, most, begin, e.now);
      CacheIsPartOfPlain(before, p, lifetime, most);
      TimesArePast(before, e.now);
      TimesSinceBegin(before, most, begin);
      StepKeepsYoung(p, e, s, Plain(before), lifetime, most, begin, now);
    }
  }

  lemma {:induction false} TimesSinceBegin(run: Run, most: nat, begin: int)
    requires Roomy(run, most, begin) && exists now :: Monotone(run, now)
    ensures forall k | k in Plain(run) :: begin <= Plain(run)[k].used
  {
    if run.Then? {
      assert Monotone(run.before, run.event.now);
      TimesSinceBegin(run.before, most, begin);
    }
  }

  ghost predicate Timely(m: Entries, begin: int, now: int) {
    forall k | k in m :: begin <= m[k].used <= now
  }

  lemma FreshIsYoung(p: Entries, m: Entries, now: int, lifetime: nat, begin: int)
    requires PartOf(p, m) && Timely(m, begin, now) && now < begin + U64
    requires KeepsYoung(p, m, now, lifetime)
    ensures KeepsYoung(Fresh(p, now, lifetime), m, now, lifetime)
    ensures forall k | k in Fresh(p, now, lifetime) :: now - m[k].used <= lifetime
  {
    forall k | k in m ensures Expired(now, m[k].used, lifetime) <==> now - m[k].used > lifetime {
      assert begin <= m[k].used <= now;
      SmallMod(now - m[k].used);
    }
  }

  lemma IdleWhenFresh(now: int, used: int, lifetime: nat)
    requires used <= now && !Expired(now, used, lifetime)
    ensures now - used < U64 ==> now - used <= lifetime
  {
    if now - used < U64 { SmallMod(now - used); }
  }

  lemma SmallMod(x: int)
    requires 0 <= x < U64
    ensures x % U64 == x
  { }

  lemma StepKeepsYoung(p: Entries, e: Event, s: Entries, m: Entries, lifetime: nat, most: nat, begin: int, now: int)
    requires Next(p, e, s, lifetime, most) && PartOf(p, m) && KeepsYoung(p, m, e.now, lifetime)
    requires Timely(m, begin, e.now) && e.now <= Clock(e) <= now && e.now < begin + U64
    requires Total(m) <= most && Total(PlainNext(m, e)) <= most
    ensures KeepsYoung(s, PlainNext(m, e), now, lifetime)
  {
    match e
    case Insert(key, data, at) =>
      if ValidKey(key) {
        var put := p[key := Entry(data, at)];
        TotalOfPart(put, PlainNext(m, e));
        NothingEvictedWithinLimit(put, s, most);
      }
    case Lookup(key, at, touch, hit) =>
      if ValidKey(key) {
        var a: Entries :| Answers(p, a, e, s, lifetime, most);
        FreshIsYoung(p, m, at, lifetime, begin);
        TotalOfPart(Fresh(p, at, lifetime), m);
        NothingEvictedWithinLimit(Fresh(p, at, lifetime), a, most);
      }
    case Maintain(at) =>
      FreshIsYoung(p, m, at, lifetime, begin);
      TotalOfPart(Fresh(p, at, lifetime), m);
      NothingEvictedWithinLimit(Fresh(p, at, lifetime), s, most);
  }

  /** While everything ever inserted fits, and no two clock readings are 2^64 seconds apart,
      a lookup hits exactly when its key was inserted and was last inserted or hit no longer
      ago than the lifetime. */
  lemma HitIffFresh(run: Run, s: Entries, lookup: Event, s': Entries, lifetime: nat, most: nat, begin: int)
    requires Reaches(run, s, lifetime, most) && Next(s, lookup, s', lifetime, most)
    requires lookup.Lookup? && ValidKey(lookup.key)
    requires Roomy(run, most, begin) && Monotone(run, lookup.now) && begin <= lookup.now < begin + U64
    ensures lookup.hit.Some? <==> lookup.key in Plain(run) && lookup.now - Plain(run)[lookup.key].used <= lifetime
  {
    RoomyKeepsYoung(run, s, lifetime, most, begin, lookup.now);
    CacheIsPartOfPlain(run, s, lifetime, most);
    TimesArePast(run, lookup.now);
    TimesSinceBegin(run, most, begin);
    var m: Entries :| Answers(s, m, lookup, s', lifetime, most);
    FreshIsYoung(s, Plain(run), lookup.now, lifetime, begin);
    TotalOfPart(Fresh(s, lookup.now, lifetime), Plain(run));
    NothingEvictedWithinLimit(Fresh(s, lookup.now, lifetime), m, most);
  }

  /** Whether an entry last used at `used` is kept at `now`: idle no longer than the lifetime,
      where a time in the future counts as idle since 2^64 seconds before it. */
  predicate KeptAt(now: int, used: int, lifetime: nat) {
    if used <= now then now - used <= lifetime else now + U64 - used <= lifetime
  }

  /** Maintaining a cache that is within its limit drops exactly the entries idle beyond the
      lifetime, and, unless the lifetime is all but endless, those with a time in the future. */
  lemma MaintainExactly(s: Entries, now: int, s': Entries, lifetime: nat, most: nat)
    requires Next(s, Maintain(now), s', lifetime, most) && Total(s) <= most
    requires forall k | k in s :: now - U64 < s[k].used < now + U64
    ensures s' == map k | k in s && KeptAt(now, s[k].used, lifetime) :: s[k]
  {
    forall k | k in s ensures Expired(now, s[k].used, lifetime) <==> !KeptAt(now, s[k].used, lifetime) {
      if s[k].used <= now { SmallMod(now - s[k].used); } else { NegativeMod(now - s[k].used); }
    }
    TotalOfPart(Fresh(s, now, lifetime), s);
    NothingEvictedWithinLimit(Fresh(s, now, lifetime), s', most);
  }

  lemma NegativeMod(x: int)
    requires -(U64 as int) < x < 0
    ensures x % U64 == x + U64
  { }

  // ---------------------------------------------------------------- the cache

  const DefaultMost: nat := 100 * 1024 * 1024

  class Cache {
    const lifetime: nat
    const most: nat
    var entries: Entries
    var size: nat

    constructor (lifetime: nat)
      requires lifetime < U64
      ensures Valid() && entries == map[] && this.lifetime == lifetime && most == DefaultMost
      ensures Reaches(Start, entries, lifetime, most)
    {
      this.lifetime, most := lifetime, DefaultMost;
      entries, size := map[], 0;
    }

    /** The running size is exact. */
    ghost predicate Exact()
      reads this
    {
      size == Total(entries)
    }

    ghost predicate Valid()
      reads this
    {
      Exact() && size <= most < U64 && lifetime < U64
    }

    method Erase(k: Octets)
      requires Exact() && k in entries
      modifies this
      ensures Exact() && entries == old(entries) - {k} && size == old(size) - |old(entries)[k].data|
    {
      TotalRemove(entries, k);
      size := size - |entries[k].data|;
      entries := entries - {k};
    }

    /** The scan for the least time; among equal times any entry may come out. */
    method Oldest() returns (k: Octets)
      requires entries != map[]
      ensures k in entries && forall o | o in entries :: entries[k].used <= entries[o].used
    {
      k :| k in entries;
      var rest := entries.Keys - {k};
      while rest != {}
        invariant k in entries && k !in rest && rest <= entries.Keys
        invariant forall o | o in entries && o !in rest :: entries[k].used <= entries[o].used
        decreases |rest|
      {
        var o :| o in rest;
        if entries[o].used < entries[k].used { k := o; }
        rest := rest - {o};
      }
    }

    method EnforceMaxSize()
      requires Exact()
      modifies this
      ensures Exact() && size <= most
      ensures Evicted(old(entries), entries, most)
    {
      ghost var was := entries;
      while size > most && entries != map[]
        invariant Exact()
        invariant entries.Keys <= was.Keys && forall k | k in entries :: entries[k] == was[k]
        invariant forall r, s | Removed(was, entries, r) && s in entries :: was[r].used <= entries[s].used
        invariant entries == was || exists k :: LastRemoved(was, entries, most, k)
        decreases |entries|
      {
        var k := Oldest();
        ghost var before := entries;
        Erase(k);
        OneMoreRemoved(was, before, entries, most, k);
      }
    }

    /** Drops what has expired, in the order in which the map is walked. */
    method MaintainCache(now: int)
      requires Exact()
      modifies this
      ensures Exact() && size <= most
      ensures Evicted(Fresh(old(entries), now, lifetime), entries, most)
    {
      ghost var was := entries;
      var rest := entries.Keys;
      while rest != {}
        invariant Exact() && rest <= was.Keys
        invariant entries == map k | k in was && (k in rest || !Expired(now, was[k].used, lifetime)) :: was[k]
        decreases |rest|
      {
        var k :| k in rest;
        if Expired(now, entries[k].used, lifetime) { Erase(k); }
        rest := rest - {k};
      }
      assert entries == Fresh(was, now, lifetime);
      EnforceMaxSize();
    }

    method MaintainCacheExt(now: int)
      requires Valid()
      modifies this
      ensures Valid() && Next(old(entries), Maintain(now), entries, lifetime, most)
    {
      MaintainCache(now);
    }

    method InsertIntoCache(key: Octets, data: Octets, now: int) returns (ok: bool)
      requires Valid()
      modifies this
      ensures Valid() && Next(old(entries), Insert(key, data, now), entries, lifetime, most)
      ensures ok <==> ValidKey(key)
    {
      if |key| != 32 { return false; }
      TotalPut(entries, key, Entry(data, now));
      if key !in entries {
        entries := entries[key := Entry(data, now)];
        size := size + |data|;
      } else {
        TotalRemove(entries, key);
        size := size - |entries[key].data|;
        entries := entries[key := Entry(data, now)];
        size := size + |data|;
      }
      EnforceMaxSize();
      return true;
    }

    method CheckAndRetrieve(key: Octets, now: int, touch: int) returns (hit: Option<Octets>)
      requires Valid()
      modifies this
      ensures Valid() && Next(old(entries), Lookup(key, now, touch, hit), entries, lifetime, most)
    {
      if |key| != 32 { return None; }
      MaintainCache(now);
      ghost var m := entries;
      hit := None;
      if key in entries {
        TotalPut(entries, key, Entry(entries[key].data, touch));
        entries := entries[key := Entry(entries[key].data, touch)];
        hit := Some(entries[key].data);
      }
      assert Answers(old(entries), m, Lookup(key, now, touch, hit), entries, lifetime, most);
    }
  }

  /** Removing the oldest entry while the limit is passed is one more step of eviction. */
  lemma OneMoreRemoved(was: Entries, before: Entries, after: Entries, most: nat, k: Octets)
    requires before.Keys <= was.Keys && forall s | s in before :: before[s] == was[s]
    requires k in before && after == before - {k}
    requires forall o | o in before :: before[k].used <= before[o].used
    requires forall r, s | Removed(was, before, r) && s in before :: was[r].used <= before[s].used
    requires Total(before) > most
    ensures LastRemoved(was, after, most, k)
    ensures forall r, s | Removed(was, after, r) && s in after :: was[r].used <= after[s].used
  {
    TotalRemove(before, k);
    forall r | Removed(was, after, r)
      ensures was[r].used <= was[k].used && forall s | s in after :: was[r].used <= after[s].used
    {
      if r != k { assert Removed(was, before, r); }
    }
  }
}
