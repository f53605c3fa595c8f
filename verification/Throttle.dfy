/**
 The shared throttle counter: `SET key 0 EX ttl NX` and `INCR key` as one transaction.
 Time is an integer number of clock ticks; a key whose expiry has come is gone.
 */
module Throttle {
  import opened Common

  datatype Counter = Counter(count: int, expires: Option<int>)
  type Store = map<string, Counter>

  predicate Live(store: Store, key: string, now: int) {
    key in store && (store[key].expires.None? || now < store[key].expires.value)
  }

  // The two commands as the server defines them.

  function SetIfMissing(store: Store, key: string, now: int, ttl: int): Store {
    if Live(store, key, now) then store else store[key := Counter(0, Some(now + ttl))]
  }

  function Increment(store: Store, key: string, now: int): Store {
    if Live(store, key, now) then store[key := store[key].(count := store[key].count + 1)]
    else store[key := Counter(1, None)]
  }

  function Bumped(store: Store, key: string, now: int, ttl: int): Store {
    Increment(SetIfMissing(store, key, now, ttl), key, now)
  }

  lemma BumpedEntry(store: Store, key: string, now: int, ttl: int)
    requires ttl > 0
    ensures var after := Bumped(store, key, now, ttl);
            && Live(after, key, now)
            && after[key] == if Live(store, key, now) then Counter(store[key].count + 1, store[key].expires)
                             else Counter(1, Some(now + ttl))
  {
  }

  class Server {
    var now: int
    var store: Store

    constructor (now: int)
      ensures this.now == now && store == map[]
    {
      this.now, store := now, map[];
    }

    method Wait(ticks: nat)
      modifies this`now
      ensures now == old(now) + ticks
    {
      now := now + ticks;
    }

    /** The server refuses a time to live that is not positive, and the error reaches the caller. */
    method BumpCounter(key: string, ttl: int) returns (count: int)
      requires ttl > 0
      modifies this`store
      ensures store == Bumped(old(store), key, now, ttl)
      ensures count == if old(Live(store, key, now)) then old(store[key].count) + 1 else 1
      ensures store[key].count == count && Live(store, key, now)
      ensures store[key].expires == if old(Live(store, key, now)) then old(store[key].expires) else Some(now + ttl)
      ensures forall k :: k != key ==> (k in store <==> k in old(store)) && (k in store ==> store[k] == old(store)[k])
    {
      store := SetIfMissing(store, key, now, ttl);
      store := Increment(store, key, now);
      count := store[key].count;
    }
  }

  // ----- Runs of hits

  datatype Hit = Hit(at: int, key: string, ttl: int)

  ghost predicate PositiveTtl(hits: seq<Hit>) {
    forall i :: 0 <= i < |hits| ==> hits[i].ttl > 0
  }

  ghost predicate IsRun(hits: seq<Hit>) {
    && PositiveTtl(hits)
    && (forall i, j :: 0 <= i < j < |hits| ==> hits[i].at <= hits[j].at)
  }

  function StoreAfter(hits: seq<Hit>): Store {
    if hits == [] then map[]
    else var h := hits[|hits| - 1]; Bumped(StoreAfter(hits[..|hits| - 1]), h.key, h.at, h.ttl)
  }

  /** What each call returned. */
  function Counts(hits: seq<Hit>): (counts: seq<int>)
    ensures |counts| == |hits|
  {
    if hits == [] then []
    else Counts(hits[..|hits| - 1]) + [StoreAfter(hits)[hits[|hits| - 1].key].count]
  }

  /** The counter driven through a run, the clock moved on to each hit: the store and the counts are those above. */
  method Replay(hits: seq<Hit>, start: int) returns (counts: seq<int>, server: Server)
    requires IsRun(hits) && (hits != [] ==> start <= hits[0].at)
    ensures fresh(server) && counts == Counts(hits) && server.store == StoreAfter(hits)
  {
    hide Bumped;
    server := new Server(start);
    counts := [];
    for n := 0 to |hits|
      invariant fresh(server) && counts == Counts(hits[..n]) && server.store == StoreAfter(hits[..n])
      invariant n < |hits| ==> server.now <= hits[n].at
    {
      assert hits[..n + 1][..n] == hits[..n];
      server.Wait(hits[n].at - server.now);
      var count := server.BumpCounter(hits[n].key, hits[n].ttl);
      counts := counts + [count];
    }
    assert hits[..|hits|] == hits;
  }

  /** Hit `i` is the last on its key; `anchor` opened the window it falls into: it counted one, and every later hit of
      the key counted more and came before the anchor's `ttl` had passed. */
  ghost predicate Anchors(hits: seq<Hit>, counts: seq<int>, key: string, anchor: int, i: int) {
    && 0 <= anchor <= i < |hits| == |counts|
    && hits[anchor].key == hits[i].key == key && counts[anchor] == 1
    && (forall k :: i < k < |hits| ==> hits[k].key != key)
    && (forall k :: anchor < k < |hits| && hits[k].key == key ==>
          counts[k] > 1 && hits[k].at < hits[anchor].at + hits[anchor].ttl)
  }

  /** The entry of a key is the window that `anchor` opened, `i` being the last hit in it. */
  ghost predicate Opened(hits: seq<Hit>, counts: seq<int>, entry: Counter, key: string, anchor: int, i: int) {
    && Anchors(hits, counts, key, anchor, i)
    && entry.expires == Some(hits[anchor].at + hits[anchor].ttl) && entry.count == counts[i] >= 1
  }

  lemma OpenedStays(hits: seq<Hit>, counts: seq<int>, h: Hit, count: int, entry: Counter, key: string, anchor: int,
                    i: int)
    requires Opened(hits, counts, entry, key, anchor, i) && h.key != key
    ensures Opened(hits + [h], counts + [count], entry, key, anchor, i)
  {
  }

  lemma OpenedExtends(hits: seq<Hit>, counts: seq<int>, h: Hit, entry: Counter, anchor: int, i: int)
    requires Opened(hits, counts, entry, h.key, anchor, i) && h.at < entry.expires.value
    ensures Opened(hits + [h], counts + [entry.count + 1], Counter(entry.count + 1, entry.expires), h.key, anchor,
                   |hits|)
  {
    forall k | anchor < k <= |hits| && (hits + [h])[k].key == h.key
      ensures (counts + [entry.count + 1])[k] > 1 && (hits + [h])[k].at < hits[anchor].at + hits[anchor].ttl
    {
      assert k < |hits| ==> hits[k].key == h.key;
    }
  }

  lemma OpenedStarts(hits: seq<Hit>, counts: seq<int>, h: Hit)
    requires |counts| == |hits|
    ensures Opened(hits + [h], counts + [1], Counter(1, Some(h.at + h.ttl)), h.key, |hits|, |hits|)
  {
  }

  lemma BumpedAt(store: Store, h: Hit, key: string)
    requires h.ttl > 0
    ensures var after := Bumped(store, h.key, h.at, h.ttl);
            && (key == h.key ==>
                  key in after
                  && after[key] == (if Live(store, key, h.at) then Counter(store[key].count + 1, store[key].expires)
                                                 else Counter(1, Some(h.at + h.ttl))))
            && (key != h.key ==> (key in after <==> key in store) && (key in store ==> after[key] == store[key]))
  {
  }

  lemma LastStore(hits: seq<Hit>)
    requires hits != []
    ensures var h := hits[|hits| - 1]; StoreAfter(hits) == Bumped(StoreAfter(hits[..|hits| - 1]), h.key, h.at, h.ttl)
  {
    hide Bumped;
  }

  lemma LastCount(hits: seq<Hit>)
    requires hits != [] && hits[|hits| - 1].key in StoreAfter(hits)
    ensures Counts(hits) == Counts(hits[..|hits| - 1]) + [StoreAfter(hits)[hits[|hits| - 1].key].count]
  {
    hide StoreAfter;
  }

  /** The state of a key after a run: who opened its window, and where that window ends. */
  lemma {:induction false} Window(hits: seq<Hit>, key: string) returns (anchor: int, i: int)
    requires PositiveTtl(hits) && key in StoreAfter(hits)
    ensures Opened(hits, Counts(hits), StoreAfter(hits)[key], key, anchor, i)
  {
    assert hits != [];
    hide StoreAfter, Counts, Opened, Bumped;
    var n := |hits| - 1;
    LastStore(hits);
    var before, h := hits[..n], hits[n];
    var store := StoreAfter(before);
    BumpedAt(store, h, key);
    BumpedAt(store, h, h.key);
    LastCount(hits);
    assert hits == before + [h];
    hide PositiveTtl;
    if h.key != key {
      anchor, i := Window(before, key);
      OpenedStays(before, Counts(before), h, StoreAfter(hits)[h.key].count, store[key], key, anchor, i);
    } else if Live(store, key, h.at) {
      anchor, i := Window(before, key);
      OpenedExpires(before, Counts(before), store[key], key, anchor, i);
      OpenedExtends(before, Counts(before), h, store[key], anchor, i);
      i := n;
    } else {
      OpenedStarts(before, Counts(before), h);
      anchor, i := n, n;
    }
  }

  lemma OpenedExpires(hits: seq<Hit>, counts: seq<int>, entry: Counter, key: string, anchor: int, i: int)
    requires Opened(hits, counts, entry, key, anchor, i)
    ensures entry.expires.Some?
  {
  }

  lemma {:induction false} Untouched(hits: seq<Hit>, key: string)
    ensures key in StoreAfter(hits) <==> exists i :: 0 <= i < |hits| && hits[i].key == key
  {
    if hits != [] {
      var n := |hits| - 1;
      Untouched(hits[..n], key);
      if key in StoreAfter(hits[..n]) {
        var i :| 0 <= i < n && hits[..n][i].key == key;
        assert hits[i].key == key;
      }
    }
  }

  /**
   A window ends exactly `ttl` after the hit that opened it: a further hit on the key counts one
   if and only if it comes at that moment or later, however many hits came in between and
   whatever `ttl` they asked for; and hits on other keys do not matter.
   */
  lemma WindowEndsAtItsAnchor(hits: seq<Hit>, next: Hit) returns (anchor: int, i: int)
    requires PositiveTtl(hits + [next]) && exists k :: 0 <= k < |hits| && hits[k].key == next.key
    ensures Anchors(hits, Counts(hits), next.key, anchor, i)
    ensures Counts(hits + [next])[|hits|] ==
            if next.at < hits[anchor].at + hits[anchor].ttl then Counts(hits)[i] + 1 else 1
  {
    var run := hits + [next];
    assert run[..|hits|] == hits && run[|hits|] == next;
    assert forall k :: 0 <= k < |hits| ==> hits[k] == run[k];
    Untouched(hits, next.key);
    anchor, i := Window(hits, next.key);
    BumpedEntry(StoreAfter(hits), next.key, next.at, next.ttl);
  }

  // ----- How many calls get through

  /** Hits on `key` from `from` up to, not including, `from + ttl` whose count stays within `cap`. */
  ghost function Accepted(hits: seq<Hit>, key: string, cap: nat, from: int, ttl: int): nat {
    if hits == [] then 0
    else
      var n := |hits| - 1;
      Accepted(hits[..n], key, cap, from, ttl) +
        if hits[n].key == key && from <= hits[n].at < from + ttl && Counts(hits)[n] <= cap then 1 else 0
  }

  function Min(a: int, b: int): int {
    if a <= b then a else b
  }

  /** The window open for `key`, in a store last written at `last`, bounds what the interval has let through so far. */
  ghost predicate Budget(store: Store, last: Option<int>, key: string, cap: int, from: int, ttl: int, accepted: int) {
    && (last.Some? && last.value < from ==> accepted == 0)
    && if key !in store then accepted == 0
    else
      && store[key].expires.Some? && store[key].count >= 1
      && (last.Some? ==> store[key].expires.value - ttl <= last.value)
      && var anchor, count := store[key].expires.value - ttl, store[key].count;
         if anchor < from then accepted <= (if cap == 0 then 0 else Min(cap, count) - 1)
         else if anchor < from + ttl then accepted <= (if cap == 0 then 0 else cap - 1 + Min(cap, count))
         else accepted <= (if cap == 0 then 0 else 2 * cap - 1)
  }

  /** One more hit, not before the last, keeps to the budget, whatever its key. */
  lemma BudgetStep(store: Store, last: Option<int>, h: Hit, key: string, cap: nat, from: int, ttl: int, accepted: int)
    requires h.ttl > 0 && (h.key == key ==> h.ttl == ttl) && (last.Some? ==> last.value <= h.at)
    requires Budget(store, last, key, cap, from, ttl, accepted) && (last.None? ==> store == map[])
    ensures var after := Bumped(store, h.key, h.at, h.ttl);
            && h.key in after
            && Budget(after, Some(h.at), key, cap, from, ttl,
                      accepted +
                      if h.key == key && from <= h.at < from + ttl && after[h.key].count <= cap then 1 else 0)
  {
    BumpedAt(store, h, key);
    BumpedAt(store, h, h.key);
    hide Bumped;
  }

  function LastAt(hits: seq<Hit>): Option<int> {
    if hits == [] then None else Some(hits[|hits| - 1].at)
  }

  lemma {:induction false} WithinBudget(hits: seq<Hit>, key: string, cap: nat, from: int, ttl: int)
    requires IsRun(hits)
    requires forall i :: 0 <= i < |hits| && hits[i].key == key ==> hits[i].ttl == ttl
    ensures Budget(StoreAfter(hits), LastAt(hits), key, cap, from, ttl, Accepted(hits, key, cap, from, ttl))
  {
    if hits != [] {
      var n := |hits| - 1;
      assert n > 0 ==> hits[..n][n - 1].at <= hits[n].at;
      WithinBudget(hits[..n], key, cap, from, ttl);
      hide Budget, Bumped;
      BudgetStep(StoreAfter(hits[..n]), LastAt(hits[..n]), hits[n], key, cap, from, ttl,
                 Accepted(hits[..n], key, cap, from, ttl));
      LastStore(hits);
      LastCount(hits);
    }
  }

  /**
   In any interval of `ttl` ticks at most `2 * cap - 1` calls on a key return a count within the
   cap (none for a cap of zero), however many further calls are made on this or any other key.
   */
  lemma ThrottleBound(hits: seq<Hit>, key: string, cap: nat, from: int, ttl: int)
    requires IsRun(hits)
    requires forall i :: 0 <= i < |hits| && hits[i].key == key ==> hits[i].ttl == ttl
    ensures Accepted(hits, key, cap, from, ttl) <= if cap == 0 then 0 else 2 * cap - 1
  {
    WithinBudget(hits, key, cap, from, ttl);
  }

  // ----- The bound is reached

  function Burst(h: Hit, n: nat): seq<Hit> {
    if n == 0 then [] else Burst(h, n - 1) + [h]
  }

  lemma OneMore(hits: seq<Hit>, h: Hit, cap: nat, from: int, ttl: int)
    requires h.ttl > 0
    ensures StoreAfter(hits + [h]) == Bumped(StoreAfter(hits), h.key, h.at, h.ttl) && h.key in StoreAfter(hits + [h])
    ensures Accepted(hits + [h], h.key, cap, from, ttl) == Accepted(hits, h.key, cap, from, ttl) +
              if from <= h.at < from + ttl && StoreAfter(hits + [h])[h.key].count <= cap then 1 else 0
  {
    hide Bumped;
    BumpedEntry(StoreAfter(hits), h.key, h.at, h.ttl);
    var run := hits + [h];
    assert run[..|hits|] == hits && run[|hits|] == h;
    assert StoreAfter(run) == Bumped(StoreAfter(hits), h.key, h.at, h.ttl);
    assert Counts(run)[|hits|] == StoreAfter(run)[h.key].count;
    hide StoreAfter, Counts;
  }

  lemma {:induction false} BurstCounts(hits: seq<Hit>, h: Hit, n: nat, cap: nat, from: int, ttl: int)
    requires Live(StoreAfter(hits), h.key, h.at) && from <= h.at < from + ttl && h.ttl > 0
    requires StoreAfter(hits)[h.key].count + n <= cap
    ensures h.key in StoreAfter(hits + Burst(h, n))
    ensures StoreAfter(hits + Burst(h, n))[h.key] ==
            Counter(StoreAfter(hits)[h.key].count + n, StoreAfter(hits)[h.key].expires)
    ensures Accepted(hits + Burst(h, n), h.key, cap, from, ttl) == Accepted(hits, h.key, cap, from, ttl) + n
  {
    hide StoreAfter, Accepted, Bumped;
    if n == 0 {
      assert hits + Burst(h, 0) == hits;
    } else {
      BurstCounts(hits, h, n - 1, cap, from, ttl);
      var longer := hits + Burst(h, n - 1);
      assert hits + Burst(h, n) == longer + [h];
      OneMore(longer, h, cap, from, ttl);
      BumpedEntry(StoreAfter(longer), h.key, h.at, h.ttl);
    }
  }

  /** One early hit, then the rest of its window's cap at its last tick. */
  function FullWindow(key: string, cap: nat, ttl: int): seq<Hit>
    requires cap >= 1
  {
    [Hit(0, key, ttl)] + Burst(Hit(ttl - 1, key, ttl), cap - 1)
  }

  /** That, and a full cap one tick later. */
  function Straddle(key: string, cap: nat, ttl: int): seq<Hit>
    requires cap >= 1
  {
    FullWindow(key, cap, ttl) + [Hit(ttl, key, ttl)] + Burst(Hit(ttl, key, ttl), cap - 1)
  }

  lemma {:induction false} BurstElements(h: Hit, n: nat)
    ensures |Burst(h, n)| == n && forall i :: 0 <= i < n ==> Burst(h, n)[i] == h
  {
    if n > 0 {
      BurstElements(h, n - 1);
    }
  }

  lemma StraddleIsRun(key: string, cap: nat, ttl: int)
    requires cap >= 1 && ttl >= 2
    ensures IsRun(Straddle(key, cap, ttl))
    ensures forall h :: h in Straddle(key, cap, ttl) ==> h.key == key && h.ttl == ttl
  {
    BurstElements(Hit(ttl - 1, key, ttl), cap - 1);
    BurstElements(Hit(ttl, key, ttl), cap - 1);
    hide Burst;
    var hits := Straddle(key, cap, ttl);
    assert |hits| == 2 * cap;
    assert forall i :: 0 <= i < |hits| ==>
      hits[i] == Hit(if i == 0 then 0 else if i < cap then ttl - 1 else ttl, key, ttl);
  }

  /** No smaller bound holds: for every cap and every window longer than a tick some run reaches it. */
  lemma BoundIsReached(key: string, cap: nat, ttl: int)
    requires cap >= 1 && ttl >= 2
    ensures var hits := Straddle(key, cap, ttl);
            && IsRun(hits) && (forall h :: h in hits ==> h.key == key && h.ttl == ttl)
            && Accepted(hits, key, cap, ttl - 1, ttl) == 2 * cap - 1
  {
    hide IsRun, Burst, Accepted, Bumped, StoreAfter, FullWindow;
    var two, c := FullWindow(key, cap, ttl), Hit(ttl, key, ttl);
    StraddleIsRun(key, cap, ttl);
    StraddleFirst(key, cap, ttl);
    OneMore(two, c, cap, ttl - 1, ttl);
    BumpedEntry(StoreAfter(two), key, ttl, ttl);
    BurstCounts(two + [c], c, cap - 1, cap, ttl - 1, ttl);
  }

  lemma StraddleFirst(key: string, cap: nat, ttl: int)
    requires cap >= 1 && ttl >= 2
    ensures var hits := FullWindow(key, cap, ttl);
            && key in StoreAfter(hits) && StoreAfter(hits)[key] == Counter(cap, Some(ttl))
            && Accepted(hits, key, cap, ttl - 1, ttl) == cap - 1
  {
    var hits := FullWindow(key, cap, ttl);
    assert hits == [Hit(0, key, ttl)] + Burst(Hit(ttl - 1, key, ttl), cap - 1);
    hide *;
    FirstHit(key, cap, ttl);
    BurstCounts([Hit(0, key, ttl)], Hit(ttl - 1, key, ttl), cap - 1, cap, ttl - 1, ttl);
  }

  lemma FirstHit(key: string, cap: nat, ttl: int)
    requires cap >= 1 && ttl >= 2
    ensures key in StoreAfter([Hit(0, key, ttl)]) && StoreAfter([Hit(0, key, ttl)])[key] == Counter(1, Some(ttl))
    ensures Accepted([Hit(0, key, ttl)], key, cap, ttl - 1, ttl) == 0
    ensures Live(StoreAfter([Hit(0, key, ttl)]), key, ttl - 1)
  {
    var a := Hit(0, key, ttl);
    assert [a][..0] == [];
    assert StoreAfter([a]) == Bumped(map[], key, 0, ttl);
    assert Accepted([a], key, cap, ttl - 1, ttl) == 0 + Accepted([], key, cap, ttl - 1, ttl);
  }
}
