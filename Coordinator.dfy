/**
 * The cross-tour coordinator's state machine
 * (packages/react-railway/src/hooks/useRailway.tsx).
 *
 * `Reduce` is the pure reducer; the persistent store it reads on REGISTER is
 * passed in explicitly. The provider's policies that sit on top of the reducer
 * (guarded stop, write-through persistence) live in module Provider.
 */
module Coordinator {
  import opened Wrappers

  type RailwayId = string

  datatype State = State(
    runningId: Option<RailwayId>,
    isCompletedSet: set<RailwayId>,
    isViewedSet: set<RailwayId>,
    railwayOrder: seq<RailwayId>,
    registered: set<RailwayId>)

  /** The coordinator's initial state: nothing registered, running, completed or viewed. */
  function InitialState(): (s: State)
    ensures s.runningId == None && s.registered == {}
    ensures s.isCompletedSet == {} && s.isViewedSet == {}
    ensures |s.railwayOrder| == 0 && NoDuplicates(s.railwayOrder)
  {
    State(None, {}, {}, [], {})
  }

  datatype Action =
    | Register(id: RailwayId)
    | Unregister(id: RailwayId)
    | SetRunning(runner: Option<RailwayId>)
    | SetCompleted(id: RailwayId, value: bool)
    | SetViewed(id: RailwayId, value: bool)
    | SetOrder(ids: seq<RailwayId>)

  // ---------------------------------------------------------------------------
  // Persistent store

  /** The two persisted per-tour flags. */
  datatype Flag = Completed | Viewed

  function FlagName(f: Flag): string {
    match f
    case Completed => "completed"
    case Viewed => "viewed"
  }

  /** `storageKey(id, what)`: the key `railway:<id>:<what>`. */
  function StorageKey(id: RailwayId, what: Flag): (k: string)
    ensures |k| == 9 + |id| + |FlagName(what)|
    ensures k[..8] == "railway:" && k[8..8 + |id|] == id && k[8 + |id|] == ':'
    ensures k[9 + |id|..] == FlagName(what)
  {
    "railway:" + id + ":" + FlagName(what)
  }

  /**
   * The browser's local storage, in the three states the source's guards tell
   * apart:
   * - `Available`: reads and writes succeed;
   * - `ReadOnly`: reads succeed but `setItem` throws (a full store, say), so
   *   every write is dropped;
   * - `Unavailable`: no `window` (server-side rendering), or `getItem` itself
   *   throws; reads give false and writes are dropped.
   */
  datatype Storage =
    | Available(items: map<string, string>)
    | ReadOnly(items: map<string, string>)
    | Unavailable

  /** `String(val)` for a boolean. */
  function BoolString(b: bool): string {
    if b then "true" else "false"
  }

  /**
   * `safeReadBool`: whether the store holds the string "true" under `key`. It
   * never fails: an unreachable store and a missing key both read as false.
   */
  function SafeReadBool(st: Storage, key: string): (r: bool)
    ensures st.Unavailable? ==> !r
    ensures !st.Unavailable? && key !in st.items ==> !r
    ensures r ==> st.items[key] == "true"
  {
    !st.Unavailable? && key in st.items && st.items[key] == "true"
  }

  /**
   * `safeWriteBool`: stores `String(val)` under `key`; a store that rejects the
   * write is left exactly as it was.
   */
  function SafeWriteBool(st: Storage, key: string, val: bool): (r: Storage)
    ensures !st.Available? ==> r == st
    ensures st.Available? ==> r.Available? && r.items.Keys == st.items.Keys + {key}
    ensures st.Available? ==> r.items[key] == BoolString(val)
    ensures st.Available? ==> forall k :: k in st.items && k != key ==> r.items[k] == st.items[k]
  {
    match st
    case Available(m) => Available(m[key := BoolString(val)])
    case ReadOnly(_) => st
    case Unavailable => st
  }

  /** Writing the same value twice under one key is writing it once. */
  lemma RewriteIsNoOp(st: Storage, key: string, val: bool)
    ensures SafeWriteBool(SafeWriteBool(st, key, val), key, val) == SafeWriteBool(st, key, val)
  {
    if st.Available? {
      assert st.items[key := BoolString(val)][key := BoolString(val)] == st.items[key := BoolString(val)];
    }
  }

  /** A write the store rejects changes what every later read returns: nothing. */
  lemma RejectedWriteChangesNoRead(st: Storage, key: string, val: bool, key2: string)
    requires !st.Available?
    ensures SafeReadBool(SafeWriteBool(st, key, val), key2) == SafeReadBool(st, key2)
  {
  }

  /** Distinct (id, flag) pairs never share a storage key. */
  lemma StorageKeyInjective(a: RailwayId, f: Flag, b: RailwayId, g: Flag)
    requires StorageKey(a, f) == StorageKey(b, g)
    ensures a == b && f == g
  {
    var k := StorageKey(a, f);
    // ":completed" and ":viewed" already differ seven characters from the end.
    assert k == "railway:" + a + ":" + FlagName(f);
    assert k == "railway:" + b + ":" + FlagName(g);
    assert k[|k| - 7] == if f == Completed then 'm' else ':';
    assert k[|k| - 7] == if g == Completed then 'm' else ':';
    assert |a| == |b|;
    assert a == k[8..8 + |a|] == b;
  }

  /**
   * Write-then-read: when the store accepts writes, a read of the key just
   * written returns the value written; when it rejects them (read-only or
   * unavailable), the read returns what it returned before. A read of any other
   * tour's or flag's key is unaffected either way.
   */
  lemma PersistRoundTrip(st: Storage, id: RailwayId, f: Flag, v: bool, id2: RailwayId, f2: Flag)
    ensures SafeReadBool(SafeWriteBool(st, StorageKey(id, f), v), StorageKey(id2, f2))
         == if st.Available? && id == id2 && f == f2 then v else SafeReadBool(st, StorageKey(id2, f2))
  {
    if StorageKey(id, f) == StorageKey(id2, f2) {
      StorageKeyInjective(id, f, id2, f2);
    }
  }

  // ---------------------------------------------------------------------------
  // Sequences of ids

  predicate NoDuplicates(xs: seq<RailwayId>) {
    forall i, j :: 0 <= i < j < |xs| ==> xs[i] != xs[j]
  }

  /** The position of the first occurrence of `x` in `xs`. */
  function FirstIndex(xs: seq<RailwayId>, x: RailwayId): (k: nat)
    requires x in xs
    ensures k < |xs| && xs[k] == x && x !in xs[..k]
  {
    if xs[0] == x then 0
    else
      var k := 1 + FirstIndex(xs[1..], x);
      assert xs[..k] == [xs[0]] + xs[1..][..k - 1];
      k
  }

  /** The first occurrence is the only occurrence with no earlier one. */
  lemma FirstIndexUnique(xs: seq<RailwayId>, x: RailwayId, k: nat)
    requires k < |xs| && xs[k] == x && x !in xs[..k]
    ensures FirstIndex(xs, x) == k
  {
    var f := FirstIndex(xs, x);
    forall j | 0 <= j < k ensures xs[j] != x {
      assert xs[..k][j] == xs[j];
    }
    forall j | 0 <= j < f ensures xs[j] != x {
      assert xs[..f][j] == xs[j];
    }
  }

  /** `r` lists its elements in the order of their first occurrence in `xs`. */
  ghost predicate FirstOccurrenceOrder(r: seq<RailwayId>, xs: seq<RailwayId>) {
    && (forall x :: x in r ==> x in xs)
    && forall i, j :: 0 <= i < j < |r| ==> FirstIndex(xs, r[i]) < FirstIndex(xs, r[j])
  }

  /**
   * `Array.from(new Set(ids))`: a JavaScript Set keeps insertion order, so the
   * result is `ids` with every repeated occurrence dropped, scanning left to right.
   */
  function Dedup(xs: seq<RailwayId>): (r: seq<RailwayId>)
    ensures NoDuplicates(r)
    ensures forall x :: x in r <==> x in xs
    ensures |r| <= |xs|
  {
    if |xs| == 0 then []
    else
      var init := xs[..|xs| - 1];
      assert xs == init + [xs[|xs| - 1]];
      var d := Dedup(init);
      if xs[|xs| - 1] in d then d else d + [xs[|xs| - 1]]
  }

  /** Deduplication keeps the first-occurrence order of the input. */
  lemma {:induction false} DedupKeepsFirstOccurrenceOrder(xs: seq<RailwayId>)
    ensures FirstOccurrenceOrder(Dedup(xs), xs)
  {
    if |xs| > 0 {
      var n := |xs|;
      var init := xs[..n - 1];
      var last := xs[n - 1];
      assert xs == init + [last];
      var d := Dedup(init);
      DedupKeepsFirstOccurrenceOrder(init);
      // Positions of first occurrences in `init` carry over to `xs`.
      forall y | y in init
        ensures FirstIndex(xs, y) == FirstIndex(init, y)
      {
        var k := FirstIndex(init, y);
        assert xs[..k] == init[..k];
        FirstIndexUnique(xs, y, k);
      }
      if last !in d {
        assert last !in init;
        assert xs[..n - 1] == init;
        FirstIndexUnique(xs, last, n - 1);
        var r := Dedup(xs);
        assert r == d + [last];
        forall i, j | 0 <= i < j < |r|
          ensures FirstIndex(xs, r[i]) < FirstIndex(xs, r[j])
        {
          if j == |r| - 1 {
            assert r[i] == d[i] && r[i] in init;
          } else {
            assert r[i] == d[i] && r[j] == d[j];
          }
        }
      }
    }
  }

  /** A sequence without duplicates is its own deduplication. */
  lemma {:induction false} DedupOfUnique(xs: seq<RailwayId>)
    requires NoDuplicates(xs)
    ensures Dedup(xs) == xs
  {
    if |xs| > 0 {
      var init := xs[..|xs| - 1];
      assert xs == init + [xs[|xs| - 1]];
      DedupOfUnique(init);
      assert xs[|xs| - 1] !in init;
    }
  }

  /** Deduplicating twice is deduplicating once. */
  lemma DedupIdempotent(xs: seq<RailwayId>)
    ensures Dedup(Dedup(xs)) == Dedup(xs)
  {
    DedupOfUnique(Dedup(xs));
  }

  /** `railwayOrder.filter((x) => x !== id)`: every occurrence of `x` removed, order kept. */
  function Without(xs: seq<RailwayId>, x: RailwayId): (r: seq<RailwayId>)
    ensures forall y :: y in r <==> y in xs && y != x
    ensures NoDuplicates(xs) ==> NoDuplicates(r)
    ensures |r| <= |xs|
  {
    if |xs| == 0 then []
    else
      var rest := Without(xs[1..], x);
      assert NoDuplicates(xs) ==> NoDuplicates(xs[1..]) && xs[0] !in xs[1..];
      if xs[0] == x then rest else [xs[0]] + rest
  }

  /** Filtering distributes over concatenation, so it never reorders what it keeps. */
  lemma {:induction false} WithoutConcat(a: seq<RailwayId>, b: seq<RailwayId>, x: RailwayId)
    ensures Without(a + b, x) == Without(a, x) + Without(b, x)
  {
    if |a| > 0 {
      assert (a + b)[1..] == a[1..] + b;
      WithoutConcat(a[1..], b, x);
    } else {
      assert a + b == b;
    }
  }

  /** The ids kept by `Without` appear in the order they had in the input. */
  lemma {:induction false} WithoutKeepsOrder(xs: seq<RailwayId>, x: RailwayId)
    requires NoDuplicates(xs)
    ensures FirstOccurrenceOrder(Without(xs, x), xs)
  {
    if |xs| > 0 {
      var tail := xs[1..];
      assert NoDuplicates(tail) && xs[0] !in tail;
      WithoutKeepsOrder(tail, x);
      var rest := Without(tail, x);
      var r := Without(xs, x);
      forall i, j | 0 <= i < j < |r|
        ensures FirstIndex(xs, r[i]) < FirstIndex(xs, r[j])
      {
        if xs[0] == x {
          assert r[i] == rest[i] && r[j] == rest[j];
        } else if i == 0 {
          assert r[j] == rest[j - 1] && r[j] in tail;
        } else {
          assert r[i] == rest[i - 1] && r[j] == rest[j - 1];
          assert r[i] in tail && r[j] in tail;
        }
      }
    }
  }

  /** Filtering out an absent id changes nothing. */
  lemma {:induction false} WithoutAbsent(xs: seq<RailwayId>, x: RailwayId)
    requires x !in xs
    ensures Without(xs, x) == xs
  {
    if |xs| > 0 {
      WithoutAbsent(xs[1..], x);
      assert xs == [xs[0]] + xs[1..];
    }
  }

  // ---------------------------------------------------------------------------
  // The reducer

  /** `reducer(state, action)`, with the store that REGISTER reads made explicit. */
  function Reduce(s: State, a: Action, st: Storage): (r: State)
    // Which fields each action may change.
    ensures !(a.SetRunning? || a.Unregister?) ==> r.runningId == s.runningId
    ensures !(a.Register? || a.Unregister?) ==> r.registered == s.registered
    ensures !(a.Register? || a.SetCompleted?) ==> r.isCompletedSet == s.isCompletedSet
    ensures !(a.Register? || a.SetViewed?) ==> r.isViewedSet == s.isViewedSet
    ensures !(a.Register? || a.Unregister? || a.SetOrder?) ==> r.railwayOrder == s.railwayOrder
    // The completed and viewed sets shrink only on an explicit false.
    ensures !(a.SetCompleted? && !a.value) ==> s.isCompletedSet <= r.isCompletedSet
    ensures !(a.SetViewed? && !a.value) ==> s.isViewedSet <= r.isViewedSet
  {
    match a
    case Register(id) =>
      if id in s.registered then s
      else
        var completed := SafeReadBool(st, StorageKey(id, Completed));
        var viewed := SafeReadBool(st, StorageKey(id, Viewed));
        s.(registered := s.registered + {id},
           isCompletedSet := if completed then s.isCompletedSet + {id} else s.isCompletedSet,
           isViewedSet := if viewed then s.isViewedSet + {id} else s.isViewedSet,
           railwayOrder := if id in s.railwayOrder then s.railwayOrder else s.railwayOrder + [id])
    case Unregister(id) =>
      s.(registered := s.registered - {id},
         railwayOrder := Without(s.railwayOrder, id),
         runningId := if s.runningId == Some(id) then None else s.runningId)
    case SetRunning(runner) =>
      s.(runningId := runner)
    case SetCompleted(id, value) =>
      s.(isCompletedSet := if value then s.isCompletedSet + {id} else s.isCompletedSet - {id})
    case SetViewed(id, value) =>
      s.(isViewedSet := if value then s.isViewedSet + {id} else s.isViewedSet - {id})
    case SetOrder(ids) =>
      s.(railwayOrder := Dedup(ids))
  }

  /**
   * REGISTER is idempotent: an id already registered leaves the state as it is,
   * so a second registration is a no-op whatever the store holds by then.
   */
  lemma RegisterIdempotent(s: State, id: RailwayId, st1: Storage, st2: Storage)
    ensures id in s.registered ==> Reduce(s, Register(id), st1) == s
    ensures Reduce(Reduce(s, Register(id), st1), Register(id), st2) == Reduce(s, Register(id), st1)
  {
  }

  /**
   * REGISTER of a new id registers it, puts it at the end of the order only when
   * it is absent (so the order stays free of duplicates), and leaves the running
   * slot alone.
   */
  lemma RegisterNew(s: State, id: RailwayId, st: Storage)
    requires id !in s.registered
    ensures Reduce(s, Register(id), st).registered == s.registered + {id}
    ensures Reduce(s, Register(id), st).railwayOrder
         == if id in s.railwayOrder then s.railwayOrder else s.railwayOrder + [id]
    ensures NoDuplicates(s.railwayOrder) ==> NoDuplicates(Reduce(s, Register(id), st).railwayOrder)
    ensures Reduce(s, Register(id), st).runningId == s.runningId
  {
  }

  /**
   * REGISTER seeds the flags: it can only add `id` to the completed and viewed
   * sets, never remove anything, and adds it exactly when the store holds the
   * string "true" under that id's key (and the id was not yet registered).
   */
  lemma RegisterSeedsFlags(s: State, id: RailwayId, st: Storage)
    ensures var r := Reduce(s, Register(id), st);
      && s.isCompletedSet <= r.isCompletedSet <= s.isCompletedSet + {id}
      && s.isViewedSet <= r.isViewedSet <= s.isViewedSet + {id}
      && (id in r.isCompletedSet - s.isCompletedSet
          <==> id !in s.registered && id !in s.isCompletedSet
               && !st.Unavailable? && StorageKey(id, Completed) in st.items
               && st.items[StorageKey(id, Completed)] == "true")
      && (id in r.isViewedSet - s.isViewedSet
          <==> id !in s.registered && id !in s.isViewedSet
               && !st.Unavailable? && StorageKey(id, Viewed) in st.items
               && st.items[StorageKey(id, Viewed)] == "true")
  {
  }

  /**
   * UNREGISTER drops the id from the registry and every occurrence of it from
   * the order, keeps every other id's place in both, releases the running slot
   * exactly when the id held it, and never touches the completed/viewed sets.
   */
  lemma UnregisterSpec(s: State, id: RailwayId, st: Storage)
    ensures var r := Reduce(s, Unregister(id), st);
      && r.registered == s.registered - {id}
      && id !in r.railwayOrder
      && (forall x :: x != id ==> (x in r.railwayOrder <==> x in s.railwayOrder))
      && r.railwayOrder == Without(s.railwayOrder, id)
      && (id !in s.railwayOrder ==> r.railwayOrder == s.railwayOrder)
      && (NoDuplicates(s.railwayOrder) ==> FirstOccurrenceOrder(r.railwayOrder, s.railwayOrder))
      && (r.runningId != s.runningId <==> s.runningId == Some(id))
      && r.runningId != Some(id)
      && (s.runningId == Some(id) ==> r.runningId == None)
      && r.isCompletedSet == s.isCompletedSet
      && r.isViewedSet == s.isViewedSet
  {
    if id !in s.railwayOrder {
      WithoutAbsent(s.railwayOrder, id);
    }
    if NoDuplicates(s.railwayOrder) {
      WithoutKeepsOrder(s.railwayOrder, id);
    }
  }

  /**
   * SET_COMPLETED / SET_VIEWED put the id in the set when the value is true and
   * take it out when false; no other id and no other field changes.
   */
  lemma SetFlagSpec(s: State, id: RailwayId, v: bool, st: Storage)
    ensures var r := Reduce(s, SetCompleted(id, v), st);
      && (id in r.isCompletedSet <==> v)
      && (forall x :: x != id ==> (x in r.isCompletedSet <==> x in s.isCompletedSet))
      && r == s.(isCompletedSet := r.isCompletedSet)
    ensures var r := Reduce(s, SetViewed(id, v), st);
      && (id in r.isViewedSet <==> v)
      && (forall x :: x != id ==> (x in r.isViewedSet <==> x in s.isViewedSet))
      && r == s.(isViewedSet := r.isViewedSet)
  {
  }

  /**
   * SET_ORDER stores the input with repeats removed: no duplicates, the same set
   * of ids, first-occurrence order, and nothing else in the state changes.
   */
  lemma SetOrderSpec(s: State, ids: seq<RailwayId>, st: Storage)
    ensures var r := Reduce(s, SetOrder(ids), st);
      && NoDuplicates(r.railwayOrder)
      && (forall x :: x in r.railwayOrder <==> x in ids)
      && FirstOccurrenceOrder(r.railwayOrder, ids)
      && r == s.(railwayOrder := r.railwayOrder)
  {
    DedupKeepsFirstOccurrenceOrder(ids);
  }

  /** The example `[a, b, a, c]` is stored as `[a, b, c]`. */
  lemma SetOrderExample(s: State, st: Storage)
    ensures Reduce(s, SetOrder(["a", "b", "a", "c"]), st).railwayOrder == ["a", "b", "c"]
  {
    DedupExample();
  }

  /** Appending an id keeps it only when it is not already there. */
  lemma DedupSnoc(init: seq<RailwayId>, x: RailwayId)
    ensures Dedup(init + [x]) == if x in Dedup(init) then Dedup(init) else Dedup(init) + [x]
  {
    assert (init + [x])[..|init|] == init;
  }

  /** `Array.from(new Set(["a", "b", "a", "c"]))` is `["a", "b", "c"]`. */
  lemma DedupExample()
    ensures Dedup(["a", "b", "a", "c"]) == ["a", "b", "c"]
  {
    assert Dedup(["a"]) == ["a"] by {
      DedupSnoc([], "a");
      assert [] + ["a"] == ["a"];
    }
    assert Dedup(["a", "b"]) == ["a", "b"] by {
      DedupSnoc(["a"], "b");
      assert ["a"] + ["b"] == ["a", "b"];
    }
    assert Dedup(["a", "b", "a"]) == ["a", "b"] by {
      DedupSnoc(["a", "b"], "a");
      assert ["a", "b"] + ["a"] == ["a", "b", "a"];
    }
    DedupSnoc(["a", "b", "a"], "c");
    assert ["a", "b", "a"] + ["c"] == ["a", "b", "a", "c"];
  }

  /**
   * SET_ORDER does not restrict the order to registered ids (the comment beside
   * it says it does; the code only deduplicates): an unregistered id is kept.
   */
  lemma SetOrderKeepsUnregistered(id: RailwayId, st: Storage)
    ensures id !in Reduce(InitialState(), SetOrder([id]), st).registered
    ensures Reduce(InitialState(), SetOrder([id]), st).railwayOrder == [id]
  {
    assert [id][..0] == [];
  }

  /** Every action keeps the auto-start order free of duplicates. */
  lemma ReducePreservesUniqueOrder(s: State, a: Action, st: Storage)
    requires NoDuplicates(s.railwayOrder)
    ensures NoDuplicates(Reduce(s, a, st).railwayOrder)
  {
  }

  /** Last caller wins: of two SET_RUNNING dispatches, the later one holds the slot. */
  lemma LastRunnerWins(s: State, a: RailwayId, b: RailwayId, st: Storage)
    ensures Reduce(Reduce(s, SetRunning(Some(a)), st), SetRunning(Some(b)), st).runningId == Some(b)
  {
  }

  /**
   * Reload round trip: a flag persisted by `setCompleted(id, v)` is what a fresh
   * coordinator seeds from on its first REGISTER of `id` when the store accepted
   * the write; when it rejected it, the coordinator seeds from what the store
   * held before. The other flag is read as before the write.
   */
  lemma ReloadRestoresCompleted(st: Storage, id: RailwayId, v: bool)
    ensures var r := Reduce(InitialState(), Register(id), SafeWriteBool(st, StorageKey(id, Completed), v));
      && (id in r.isCompletedSet <==> if st.Available? then v else SafeReadBool(st, StorageKey(id, Completed)))
      && r.isViewedSet == Reduce(InitialState(), Register(id), st).isViewedSet
  {
    PersistRoundTrip(st, id, Completed, v, id, Completed);
    PersistRoundTrip(st, id, Completed, v, id, Viewed);
  }
}
