/** The idempotency cache of the message delivery service: a map with a first-in first-out order list,
    emptied by age and by size. */
module IdempotencyWindow {
  import opened Packets
  import opened Wire

  type Key = string

  const TTL_MS := 600000
  const MAX_ENTRIES := 10000

  datatype Entry = Entry(code: int, message: string, serverId: MsgId, createdAtMs: int)

  datatype Window = Window(cache: map<Key, Entry>, order: seq<Key>)

  /** What accepting a message caused: the message to store and the packet for each recipient. */
  datatype Acceptance = Acceptance(store: StoreRequest, recipients: seq<UserId>, packet: Packet)

  /** One insertion into the cache; `accepted` is present when the answer is 200. */
  datatype Insertion = Insertion(key: Key, entry: Entry, accepted: Option<Acceptance>)

  function RequestKeyFor(senderUserId: UserId, clientMsgId: MsgId): Key {
    senderUserId + ":" + clientMsgId
  }

  predicate IsExpired(e: Entry, now: int) {
    TTL_MS > 0 && now - e.createdAtMs > TTL_MS
  }

  function Prune(w: Window, now: int): Window
    decreases |w.order|
  {
    if w.order == [] then w
    else
      var oldest, rest := w.order[0], w.order[1..];
      if oldest !in w.cache then Prune(Window(w.cache, rest), now)
      else if !IsExpired(w.cache[oldest], now) && !(MAX_ENTRIES > 0 && |w.cache| > MAX_ENTRIES) then w
      else Prune(Window(w.cache - {oldest}, rest), now)
  }

  function Remember(w: Window, key: Key, e: Entry): Window {
    Window(w.cache[key := e], w.order + [key])
  }

  // ---------------------------------------------------------------- always: the bound

  ghost predicate KeysOrdered(w: Window) {
    forall k :: k in w.cache ==> k in w.order
  }

  /** Also when a key stands twice in the order list. */
  lemma {:induction false} PruneBounds(w: Window, now: int)
    requires KeysOrdered(w)
    ensures KeysOrdered(Prune(w, now)) && |Prune(w, now).cache| <= 10000
    decreases |w.order|
  {
    if w.order == [] {
      assert w.cache == map[];
    } else {
      var oldest, rest := w.order[0], w.order[1..];
      assert w.order == [oldest] + rest;
      if oldest !in w.cache {
        PruneBounds(Window(w.cache, rest), now);
      } else if IsExpired(w.cache[oldest], now) || |w.cache| > MAX_ENTRIES {
        PruneBounds(Window(w.cache - {oldest}, rest), now);
      }
    }
  }

  lemma InsertKeepsOrdered(w: Window, key: Key, e: Entry)
    requires KeysOrdered(w)
    ensures KeysOrdered(Remember(w, key, e))
  {
  }

  /** Pruning only forgets: what stays keeps its answer. */
  lemma {:induction false} PruneForgets(w: Window, now: int, key: Key)
    requires key in Prune(w, now).cache
    ensures key in w.cache && Prune(w, now).cache[key] == w.cache[key]
    decreases |w.order|
  {
    if w.order != [] {
      var oldest, rest := w.order[0], w.order[1..];
      if oldest !in w.cache {
        PruneForgets(Window(w.cache, rest), now, key);
      } else if IsExpired(w.cache[oldest], now) || |w.cache| > MAX_ENTRIES {
        PruneForgets(Window(w.cache - {oldest}, rest), now, key);
      }
    }
  }

  // ---------------------------------------------------------------- a tidy cache: drop the oldest k

  ghost predicate Distinct(order: seq<Key>) {
    forall i, j :: 0 <= i < j < |order| ==> order[i] != order[j]
  }

  ghost predicate SameKeys(w: Window) {
    forall k :: k in w.cache <==> k in w.order
  }

  ghost predicate OldestFirst(w: Window)
    requires SameKeys(w)
  {
    forall i, j :: 0 <= i < j < |w.order| ==> w.cache[w.order[i]].createdAtMs <= w.cache[w.order[j]].createdAtMs
  }

  ghost predicate Tidy(w: Window) {
    Distinct(w.order) && SameKeys(w) && OldestFirst(w)
  }

  function ExpiredCount(w: Window, now: int): nat
    requires forall k :: k in w.order ==> k in w.cache
    decreases |w.order|
  {
    if w.order == [] then 0
    else (if IsExpired(w.cache[w.order[0]], now) then 1 else 0) + ExpiredCount(Window(w.cache, w.order[1..]), now)
  }

  function Max(a: int, b: int): int {
    if a < b then b else a
  }

  /** The cache restricted to the last entries of the order list. */
  function DropOldest(w: Window, k: nat): Window
    requires k <= |w.order|
  {
    Window(map key | key in w.cache && key in w.order[k..] :: w.cache[key], w.order[k..])
  }

  lemma {:induction false} TidySize(w: Window)
    requires Distinct(w.order) && SameKeys(w)
    ensures |w.cache| == |w.order|
    decreases |w.order|
  {
    if w.order == [] {
      assert w.cache == map[];
    } else {
      var oldest, rest := w.order[0], w.order[1..];
      assert w.order == [oldest] + rest;
      TidySize(Window(w.cache - {oldest}, rest));
      assert w.cache.Keys == (w.cache - {oldest}).Keys + {oldest};
      assert |w.cache.Keys| == |(w.cache - {oldest}).Keys| + 1;
    }
  }

  lemma TidyTail(w: Window)
    requires Tidy(w) && w.order != []
    ensures Tidy(Tail(w))
  {
  }

  lemma {:induction false} CountIgnoresOthers(w: Window, cache: map<Key, Entry>, now: int)
    requires forall k :: k in w.order ==> k in w.cache && k in cache && w.cache[k] == cache[k]
    ensures ExpiredCount(w, now) == ExpiredCount(Window(cache, w.order), now)
    decreases |w.order|
  {
    if w.order != [] {
      CountIgnoresOthers(Window(w.cache, w.order[1..]), cache, now);
    }
  }

  /** Once an entry is fresh, so are all later ones. */
  lemma {:induction false} FreshFirstMeansNoneExpired(w: Window, now: int)
    requires forall k :: k in w.order ==> k in w.cache && !IsExpired(w.cache[k], now)
    ensures ExpiredCount(w, now) == 0
    decreases |w.order|
  {
    if w.order != [] {
      FreshFirstMeansNoneExpired(Window(w.cache, w.order[1..]), now);
    }
  }

  lemma AllFresh(w: Window, now: int)
    requires Tidy(w) && w.order != [] && !IsExpired(w.cache[w.order[0]], now)
    ensures ExpiredCount(w, now) == 0
  {
    forall k | k in w.order ensures !IsExpired(w.cache[k], now) {
      var i :| 0 <= i < |w.order| && w.order[i] == k;
    }
    FreshFirstMeansNoneExpired(w, now);
  }

  ghost predicate Drops(w: Window, now: int)
    requires Tidy(w) && w.order != []
  {
    IsExpired(OldestEntry(w), now) || |w.cache| > MAX_ENTRIES
  }

  function Tail(w: Window): Window
    requires w.order != []
  {
    Window(w.cache - {w.order[0]}, w.order[1..])
  }

  lemma PruneFirst(w: Window, now: int)
    requires Tidy(w) && w.order != []
    ensures Prune(w, now) == if Drops(w, now) then Prune(Tail(w), now) else w
  {
  }

  function DropCount(w: Window, now: int): int
    requires Tidy(w)
  {
    Max(ExpiredCount(w, now), |w.order| - MAX_ENTRIES)
  }

  lemma CountAfterFirst(w: Window, now: int)
    requires Tidy(w) && w.order != [] && Drops(w, now)
    ensures Tidy(Tail(w)) && DropCount(w, now) == 1 + DropCount(Tail(w), now)
  {
    TidyTail(w);
    TidySize(w);
    CountIgnoresOthers(Window(w.cache, w.order[1..]), Tail(w).cache, now);
    if !IsExpired(w.cache[w.order[0]], now) { AllFresh(w, now); }
  }

  /** On a tidy cache, pruning drops exactly the oldest max(number expired, size - 10000) entries, and keeps the
      others with their answers and in their order. */
  lemma {:induction false} PruneDropsOldest(w: Window, now: int)
    requires Tidy(w)
    ensures 0 <= DropCount(w, now) <= |w.order| && Prune(w, now) == DropOldest(w, DropCount(w, now))
    decreases |w.order|
  {
    hide Tidy, DropOldest, Prune, Drops, DropCount;
    if w.order == [] {
      EmptyIsEmpty(w, now);
    } else {
      PruneFirst(w, now);
      if Drops(w, now) {
        CountAfterFirst(w, now);
        PruneDropsOldest(Tail(w), now);
        DropOneMore(w, DropCount(Tail(w), now));
      } else {
        NothingToDrop(w, now);
      }
    }
  }

  function OldestEntry(w: Window): Entry
    requires Tidy(w) && w.order != []
  {
    w.cache[w.order[0]]
  }

  lemma EmptyIsEmpty(w: Window, now: int)
    requires Tidy(w) && w.order == []
    ensures DropCount(w, now) == 0 && DropOldest(w, 0) == w && Prune(w, now) == w
  {
  }

  lemma NothingToDrop(w: Window, now: int)
    requires Tidy(w) && w.order != [] && !Drops(w, now)
    ensures DropCount(w, now) == 0 && DropOldest(w, 0) == w
  {
    AllFresh(w, now);
    TidySize(w);
    assert w.order[0..] == w.order;
    assert DropOldest(w, 0).cache == w.cache;
  }

  lemma DropOneMore(w: Window, k: nat)
    requires Tidy(w) && w.order != [] && k <= |w.order| - 1
    ensures DropOldest(Tail(w), k) == DropOldest(w, k + 1)
  {
    var oldest, rest := w.order[0], w.order[1..];
    var kept := w.order[k + 1..];
    assert rest[k..] == kept;
    forall i | 0 <= i < |kept| ensures kept[i] != oldest {
      assert kept[i] == w.order[k + 1 + i];
    }
    assert oldest !in kept;
    hide SameKeys, Distinct, OldestFirst;
  }

  lemma {:induction false} LastFreshLimitsCount(w: Window, now: int)
    requires forall k :: k in w.order ==> k in w.cache
    requires w.order != [] && !IsExpired(w.cache[w.order[|w.order| - 1]], now)
    ensures ExpiredCount(w, now) < |w.order|
    decreases |w.order|
  {
    if |w.order| > 1 {
      LastFreshLimitsCount(Window(w.cache, w.order[1..]), now);
    }
  }

  /** An entry inserted at the current time survives the pruning that follows its insertion. */
  lemma PruneKeepsNewest(w: Window, key: Key, e: Entry, now: int)
    requires Tidy(w) && key !in w.cache && e.createdAtMs == now
    requires forall k :: k in w.cache ==> w.cache[k].createdAtMs <= now
    ensures key in Prune(Remember(w, key, e), now).cache && Prune(Remember(w, key, e), now).cache[key] == e
  {
    var v := Remember(w, key, e);
    TidyInsert(w, key, e);
    PruneDropsOldest(v, now);
    assert v.order[|v.order| - 1] == key;
    LastFreshLimitsCount(v, now);
    var k := Max(ExpiredCount(v, now), |v.order| - MAX_ENTRIES);
    assert v.order[k..][|v.order| - 1 - k] == key;
  }

  lemma TidyInsert(w: Window, key: Key, e: Entry)
    requires Tidy(w) && key !in w.cache
    requires forall k :: k in w.cache ==> w.cache[k].createdAtMs <= e.createdAtMs
    ensures Tidy(Remember(w, key, e))
  {
  }

  // ---------------------------------------------------------------- over whole runs: a sliding window

  /** Insertion `j` may be forgotten: it is older than the lifetime, or followed by 10000 newer ones. */
  ghost predicate Outlived(log: seq<Insertion>, j: nat, clock: int)
    requires j < |log|
  {
    clock - log[j].entry.createdAtMs > TTL_MS || |log| - 1 - j >= MAX_ENTRIES
  }

  ghost predicate TimesAscend(log: seq<Insertion>, clock: int) {
    && (forall i, j :: 0 <= i < j < |log| ==> log[i].entry.createdAtMs <= log[j].entry.createdAtMs)
    && (forall i :: 0 <= i < |log| ==> log[i].entry.createdAtMs <= clock)
  }

  /** The order list is the end of the log, and the cache holds keys of the list only. */
  ghost predicate Follows(w: Window, log: seq<Insertion>, clock: int) {
    && |w.order| <= |log| && KeysOrdered(w) && TimesAscend(log, clock)
    && forall i :: 0 <= i < |w.order| ==> w.order[i] == log[Dropped(w, log) + i].key
  }

  function Dropped(w: Window, log: seq<Insertion>): nat
    requires |w.order| <= |log|
  {
    |log| - |w.order|
  }

  /** For one key: what the order list still holds of its insertions is one, with its answer in the cache, and the
      others were outlived. */
  ghost predicate KeyWindow(w: Window, log: seq<Insertion>, clock: int, k: Key) {
    && |w.order| <= |log|
    && (forall i :: Dropped(w, log) <= i < |log| && log[i].key == k ==> k in w.cache && w.cache[k] == log[i].entry)
    && (forall i, j :: Dropped(w, log) <= i < j < |log| && log[i].key == k ==> log[j].key != k)
    && (forall j :: 0 <= j < Dropped(w, log) && log[j].key == k ==> Outlived(log, j, clock))
  }

  /** The cache holds exactly the newest insertions of the log, and everything before them was outlived. */
  ghost predicate IsWindowOf(w: Window, log: seq<Insertion>, clock: int) {
    Follows(w, log, clock) && forall k: Key :: KeyWindow(w, log, clock, k)
  }

  /** When that holds of the keys in the order list, the cache is tidy, and pruning it drops the oldest. */
  lemma WindowIsTidy(w: Window, log: seq<Insertion>, clock: int)
    requires Follows(w, log, clock) && forall k :: k in w.order ==> KeyWindow(w, log, clock, k)
    ensures Tidy(w)
  {
    var d := Dropped(w, log);
    forall i | 0 <= i < |w.order|
      ensures w.order[i] in w.cache && w.cache[w.order[i]] == log[d + i].entry
      ensures forall j :: i < j < |w.order| ==> w.order[i] != w.order[j]
    {
      assert KeyWindow(w, log, clock, w.order[i]);
      assert log[d + i].key == w.order[i];
    }
    hide KeyWindow;
  }

  lemma LaterClock(w: Window, log: seq<Insertion>, clock: int, now: int)
    requires Follows(w, log, clock) && clock <= now
    ensures Follows(w, log, now)
    ensures forall k: Key :: KeyWindow(w, log, clock, k) ==> KeyWindow(w, log, now, k)
  {
    forall k: Key | KeyWindow(w, log, clock, k) ensures KeyWindow(w, log, now, k) {
      forall j | 0 <= j < Dropped(w, log) && log[j].key == k ensures Outlived(log, j, now) {
        assert Outlived(log, j, clock);
      }
    }
  }

  lemma {:induction false} SetOfSeqSize(order: seq<Key>, keys: set<Key>)
    requires forall k :: k in keys ==> k in order
    ensures |keys| <= |order|
    decreases |order|
  {
    if order == [] {
      assert keys == {};
    } else {
      assert order == [order[0]] + order[1..];
      SetOfSeqSize(order[1..], keys - {order[0]});
      assert keys <= (keys - {order[0]}) + {order[0]};
    }
  }

  lemma OrderNotShorter(w: Window)
    requires KeysOrdered(w)
    ensures |w.cache| <= |w.order|
  {
    SetOfSeqSize(w.order, w.cache.Keys);
  }

  /** The first key of the order list goes, with its answer or because it has none. */
  lemma PoppedFollows(w: Window, v: Window, log: seq<Insertion>, now: int)
    requires Follows(w, log, now) && w.order != []
    requires v.order == w.order[1..] && v.cache == w.cache - {w.order[0]}
    ensures Follows(v, log, now)
  {
    assert w.order == [w.order[0]] + v.order;
    forall i | 0 <= i < |v.order| ensures v.order[i] == log[Dropped(v, log) + i].key {
      assert v.order[i] == w.order[i + 1];
    }
  }

  lemma PoppedFirst(w: Window, log: seq<Insertion>, now: int)
    requires Follows(w, log, now) && w.order != [] && KeyWindow(w, log, now, w.order[0])
    requires w.order[0] in w.cache && (IsExpired(w.cache[w.order[0]], now) || |w.cache| > MAX_ENTRIES)
    ensures Outlived(log, Dropped(w, log), now)
  {
    assert log[Dropped(w, log)].key == w.order[0];
    OrderNotShorter(w);
  }

  lemma PoppedKey(w: Window, v: Window, log: seq<Insertion>, now: int, k: Key)
    requires Follows(w, log, now) && w.order != [] && KeyWindow(w, log, now, k)
    requires v.order == w.order[1..] && v.cache == w.cache - {w.order[0]}
    requires w.order[0] in w.cache ==> IsExpired(w.cache[w.order[0]], now) || |w.cache| > MAX_ENTRIES
    ensures KeyWindow(v, log, now, k)
  {
    var d := Dropped(w, log);
    assert log[d].key == w.order[0] && Dropped(v, log) == d + 1;
    if k == w.order[0] {
      assert log[d].key == k && k in w.cache;
      PoppedFirst(w, log, now);
    }
    hide Outlived, IsExpired, Follows;
  }

  /** For each key by itself, whatever became of the others. */
  lemma {:induction false} PruneKeepsKey(w: Window, log: seq<Insertion>, now: int, k: Key)
    requires Follows(w, log, now) && KeyWindow(w, log, now, k)
    ensures Follows(Prune(w, now), log, now) && KeyWindow(Prune(w, now), log, now, k)
    decreases |w.order|
  {
    if w.order != [] {
      var oldest, rest := w.order[0], w.order[1..];
      var v := Window(w.cache - {oldest}, rest);
      if oldest !in w.cache {
        assert v.cache == w.cache;
      }
      if oldest !in w.cache || IsExpired(w.cache[oldest], now) || |w.cache| > MAX_ENTRIES {
        PoppedFollows(w, v, log, now);
        PoppedKey(w, v, log, now, k);
        PruneKeepsKey(v, log, now, k);
      }
      hide Follows, KeyWindow;
    }
  }

  lemma {:induction false} PruneFollows(w: Window, log: seq<Insertion>, now: int)
    requires Follows(w, log, now)
    ensures Follows(Prune(w, now), log, now)
    decreases |w.order|
  {
    if w.order != [] {
      var oldest, rest := w.order[0], w.order[1..];
      var v := Window(w.cache - {oldest}, rest);
      if oldest !in w.cache {
        assert v.cache == w.cache;
      }
      if oldest !in w.cache || IsExpired(w.cache[oldest], now) || |w.cache| > MAX_ENTRIES {
        PoppedFollows(w, v, log, now);
        PruneFollows(v, log, now);
      }
      hide Follows;
    }
  }

  lemma PruneKeepsWindow(w: Window, log: seq<Insertion>, now: int)
    requires IsWindowOf(w, log, now)
    ensures IsWindowOf(Prune(w, now), log, now)
  {
    hide Prune, Follows, KeyWindow;
    PruneFollows(w, log, now);
    forall k: Key ensures KeyWindow(Prune(w, now), log, now, k) {
      PruneKeepsKey(w, log, now, k);
    }
  }

  /** Two insertions of the key are far apart in time, or in number. */
  ghost predicate RepeatsAreLate(log: seq<Insertion>, k: Key) {
    forall i, j :: 0 <= i < j < |log| && log[i].key == k && log[j].key == k ==>
      log[j].entry.createdAtMs - log[i].entry.createdAtMs > TTL_MS || j - i > MAX_ENTRIES
  }

  lemma InsertFollows(w: Window, log: seq<Insertion>, clock: int, x: Insertion)
    requires Follows(w, log, clock) && clock <= x.entry.createdAtMs
    ensures Follows(Remember(w, x.key, x.entry), log + [x], x.entry.createdAtMs)
  {
    InsertKeepsOrdered(w, x.key, x.entry);
  }

  lemma InsertKeepsKey(w: Window, log: seq<Insertion>, clock: int, x: Insertion, k: Key)
    requires Follows(w, log, clock) && KeyWindow(w, log, clock, k) && clock <= x.entry.createdAtMs
    requires x.key == k ==> k !in w.cache
    ensures KeyWindow(Remember(w, x.key, x.entry), log + [x], x.entry.createdAtMs, k)
  {
    var more := log + [x];
    forall j | 0 <= j < Dropped(w, log) && more[j].key == k ensures Outlived(more, j, x.entry.createdAtMs) {
      assert Outlived(log, j, clock);
    }
  }

  /** A key that is not in the cache was last inserted before the window. */
  lemma InsertIsLate(w: Window, log: seq<Insertion>, clock: int, x: Insertion, k: Key)
    requires Follows(w, log, clock) && KeyWindow(w, log, clock, k) && RepeatsAreLate(log, k) && clock <= x.entry.createdAtMs
    requires x.key == k ==> k !in w.cache
    ensures RepeatsAreLate(log + [x], k)
  {
    forall i | 0 <= i < |log| && log[i].key == x.key == k
      ensures x.entry.createdAtMs - log[i].entry.createdAtMs > TTL_MS || |log| - i > MAX_ENTRIES
    {
      assert Outlived(log, i, clock);
    }
  }

  // ---------------------------------------------------------------- which requests share a key

  /** Two senders can collide exactly when one id continues the other after a colon. */
  lemma CollidingSenders(a: UserId, b: UserId)
    ensures (exists m, n :: RequestKeyFor(a, m) == RequestKeyFor(b, n)) <==>
            a == b || a + ":" <= b + ":" || b + ":" <= a + ":"
  {
    if a + ":" <= b + ":" {
      var n := "x";
      var m := (b + ":")[|a| + 1..] + n;
      assert a + ":" + (b + ":")[|a| + 1..] == b + ":";
      assert RequestKeyFor(a, m) == RequestKeyFor(b, n);
    } else if b + ":" <= a + ":" {
      var m := "x";
      var n := (a + ":")[|b| + 1..] + m;
      assert b + ":" + (a + ":")[|b| + 1..] == a + ":";
      assert RequestKeyFor(a, m) == RequestKeyFor(b, n);
    }
    if exists m, n :: RequestKeyFor(a, m) == RequestKeyFor(b, n) {
      var m, n :| RequestKeyFor(a, m) == RequestKeyFor(b, n);
      var k := RequestKeyFor(a, m);
      assert k[..|a| + 1] == a + ":" && k[..|b| + 1] == b + ":";
      if |a| <= |b| {
        assert k[..|b| + 1][..|a| + 1] == k[..|a| + 1];
      } else {
        assert k[..|a| + 1][..|b| + 1] == k[..|b| + 1];
      }
    }
  }

  /** Sender ids without a colon make the key identify sender and msgId. */
  lemma KeyIdentifiesRequest(a: UserId, m: MsgId, b: UserId, n: MsgId)
    requires ':' !in a && ':' !in b && RequestKeyFor(a, m) == RequestKeyFor(b, n)
    ensures a == b && m == n
  {
    var k := RequestKeyFor(a, m);
    assert k[|a|] == ':' && k[|b|] == ':';
    assert forall i :: 0 <= i < |a| ==> k[i] == a[i] && a[i] in a;
    assert forall i :: 0 <= i < |b| ==> k[i] == b[i] && b[i] in b;
    assert k[..|a|] == a && k[..|b|] == b;
    assert k[|a| + 1..] == m && k[|b| + 1..] == n;
  }
}
