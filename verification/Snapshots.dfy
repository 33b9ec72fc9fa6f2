/** When a call that reads shard after shard returns one moment of the map. */
module Snapshots {
  import opened Wrappers
  import opened ShardSpec
  import opened LockSections
  import opened Calls

  // ---- if at most one write happens ----

  /** From moment `a` to `n` the shards stay as they are and client `c` stays in its call. */
  ghost predicate Quiet<K(!new), V(!new)>(
    ws: seq<World<K, V>>, who: seq<nat>, steps: seq<Step<K, V>>, c: nat, a: nat, n: nat)
    requires a <= n < |ws| && |who| == |steps| == |ws| - 1
  {
    Unchanged(ws, a, n) && StaysIn(who, steps, c, a, n)
  }

  ghost predicate Unchanged<K(!new), V(!new)>(ws: seq<World<K, V>>, a: nat, n: nat)
    requires a <= n < |ws|
  {
    forall m :: a <= m <= n ==> ws[m].shards == ws[a].shards
  }

  ghost predicate StaysIn<K(!new), V(!new)>(who: seq<nat>, steps: seq<Step<K, V>>, c: nat, a: nat, n: nat)
    requires a <= n <= |steps| && |who| == |steps|
  {
    forall m :: a <= m < n && who[m] == c ==> !steps[m].Return?
  }

  /** The sections that have been read hold what `flat` holds, and so do the shards on
      the keys still to be read. */
  ghost predicate OnTrack<K(!new), V(!new)>(
    hash: K -> nat, flat: map<K, V>, asked: set<Part<K>>, w: World<K, V>, c: nat)
  {
    && c < |w.clients| && |w.shards| == SHARD_COUNT
    && var cl := w.clients[c];
       && cl.Gathering? && cl.asked == asked && cl.todo <= asked
       && (forall k :: ReadOff(hash, flat, asked - cl.todo, cl.result, k))
       && (forall k :: Pending(hash, cl.todo, k) ==> Lookup(w.shards[Index(hash, k)], k) == Lookup(flat, k))
  }

  ghost predicate ReadOff<K(!new), V(!new)>(
    hash: K -> nat, flat: map<K, V>, done: set<Part<K>>, result: map<K, V>, k: K)
  {
    Lookup(result, k) == if Pending(hash, done, k) then Lookup(flat, k) else None
  }

  lemma GatherOnTrack<K(!new), V(!new)>(
    hash: K -> nat, flat: map<K, V>, w: World<K, V>, now: nat, c: nat, st: Step<K, V>, w': World<K, V>,
    asked: set<Part<K>>)
    requires Placed(hash, w.shards) && st.Gather? && Takes(hash, w, now, c, st, w')
    requires OnTrack(hash, flat, asked, w, c)
    ensures OnTrack(hash, flat, asked, w', c)
  {
    var cl, cl', p := w.clients[c], w'.clients[c], st.part;
    forall k ensures ReadOff(hash, flat, asked - cl'.todo, cl'.result, k) {
      PendingMore(hash, asked, cl.todo, p, k);
      assert ReadOff(hash, flat, asked - cl.todo, cl.result, k);
      assert Covers(hash, p, k) ==> Pending(hash, cl.todo, k);
      PartReadsOff(hash, w.shards, p, st.got, k);
    }
    forall k | Pending(hash, cl'.todo, k) ensures Pending(hash, cl.todo, k) {
      var q :| q in cl'.todo && Covers(hash, q, k);
      assert q in cl.todo;
    }
  }

  lemma PendingMore<K(!new)>(hash: K -> nat, asked: set<Part<K>>, todo: set<Part<K>>, p: Part<K>, k: K)
    requires p in todo && todo <= asked
    ensures Pending(hash, asked - (todo - {p}), k) <==> Pending(hash, asked - todo, k) || Covers(hash, p, k)
  {
    var before, after := asked - todo, asked - (todo - {p});
    assert after == before + {p};
    if q :| q in after && Covers(hash, q, k) {
      assert q in before || q == p;
    }
    if q :| q in before && Covers(hash, q, k) {
      assert q in after;
    }
  }

  /** What a section found is the flat map on the keys it was asked for. */
  lemma PartReadsOff<K(!new), V(!new)>(
    hash: K -> nat, ss: seq<map<K, V>>, p: Part<K>, got: map<K, Option<V>>, k: K)
    requires Placed(hash, ss) && p.shard < |ss|
    requires got.Keys == (if p.all then ss[p.shard].Keys else set x | x in p.ks && Index(hash, x) == p.shard)
    requires forall x :: x in got ==> got[x] == Lookup(ss[p.shard], x)
    ensures Lookup(Found(got), k) == if Covers(hash, p, k) then Lookup(ss[Index(hash, k)], k) else None
  {
    if k in got {
      assert Index(hash, k) == p.shard;
    }
  }

  lemma {:induction false} StaysOnTrack<K(!new), V(!new)>(
    hash: K -> nat, flat: map<K, V>, ws: seq<World<K, V>>, who: seq<nat>, steps: seq<Step<K, V>>, c: nat, a: nat,
    n: nat, asked: set<Part<K>>)
    requires Trace(hash, ws, who, steps) && a <= n < |ws| && Quiet(ws, who, steps, c, a, n)
    requires OnTrack(hash, flat, asked, ws[a], c)
    ensures OnTrack(hash, flat, asked, ws[n], c)
    decreases n - a
  {
    if a < n {
      StaysOnTrack(hash, flat, ws, who, steps, c, a, n - 1, asked);
      TraceSettles(hash, ws, who, steps, n - 1);
      assert Takes(hash, ws[n - 1], n - 1, who[n - 1], steps[n - 1], ws[n]);
      if who[n - 1] == c && steps[n - 1].Gather? {
        GatherOnTrack(hash, flat, ws[n - 1], n - 1, c, steps[n - 1], ws[n], asked);
      }
    }
  }

  /** Before anything is read the flat map is on track. */
  lemma StartsOnTrack<K(!new), V(!new)>(hash: K -> nat, w: World<K, V>, c: nat)
    requires Placed(hash, w.shards) && c < |w.clients|
    requires var cl := w.clients[c]; cl.Gathering? && cl.todo == cl.asked && cl.result == map[]
    ensures OnTrack(hash, Flat(w.shards), w.clients[c].asked, w, c)
  {
    var asked := w.clients[c].asked;
    assert asked - asked == {};
    FlatAt(hash, w.shards);
  }

  /** The flat map that was on track at the end is the result of Items. */
  lemma EndsOnTrack<K(!new), V(!new)>(hash: K -> nat, flat: map<K, V>, w: World<K, V>, c: nat)
    requires OnTrack(hash, flat, WholeParts(), w, c) && w.clients[c].todo == {}
    ensures w.clients[c].result == flat
  {
    var asked := WholeParts<K>();
    var cl := w.clients[c];
    assert asked - cl.todo == asked;
    forall k ensures Lookup(cl.result, k) == Lookup(flat, k) {
      PartsCover(hash, {}, k);
      assert ReadOff(hash, flat, asked, cl.result, k);
    }
    SameAnswers(cl.result, flat);
  }

  /** If nobody writes from before the first to after the last section of Items, the
      result is the flat map of that time. */
  lemma QuietItems<K(!new), V(!new)>(
    hash: K -> nat, ws: seq<World<K, V>>, who: seq<nat>, steps: seq<Step<K, V>>, c: nat, a: nat, n: nat)
    requires Trace(hash, ws, who, steps) && a <= n < |ws| && Quiet(ws, who, steps, c, a, n) && c < |ws[a].clients|
    requires var cl := ws[a].clients[c];
             cl.Gathering? && cl.asked == WholeParts() && cl.todo == cl.asked && cl.result == map[]
    requires c < |ws[n].clients| && ws[n].clients[c].Gathering? && ws[n].clients[c].todo == {}
    ensures ws[n].clients[c].result == Flat(ws[a].shards)
  {
    TraceSettles(hash, ws, who, steps, a);
    StartsOnTrack(hash, ws[a], c);
    StaysOnTrack(hash, Flat(ws[a].shards), ws, who, steps, c, a, n, WholeParts());
    EndsOnTrack(hash, Flat(ws[a].shards), ws[n], c);
  }

  /** A write is seen by all of the rest of Items or by nothing: if its shard has been
      read the flat map of before stays on track, and that of after comes on track if not. */
  lemma WriteOnTrack<K(!new), V(!new)>(
    hash: K -> nat, w: World<K, V>, now: nat, d: nat, st: Step<K, V>, w': World<K, V>, c: nat)
    returns (flat: map<K, V>)
    requires Placed(hash, w.shards) && Takes(hash, w, now, d, st, w') && (st.Scatter? || st.Other?)
    requires OnTrack(hash, Flat(w.shards), WholeParts(), w, c)
    ensures flat == Flat(w.shards) || flat == Flat(w'.shards)
    ensures OnTrack(hash, flat, WholeParts(), w', c)
  {
    var i := st.shard;
    var cl := w.clients[c];
    StaysPlaced(hash, w, now, d, st, w');
    FlatAt(hash, w.shards);
    FlatAt(hash, w'.shards);
    WholePending(hash, cl.todo);
    WholePending(hash, WholeParts<K>() - cl.todo);
    var unread := Part(i, true, {}) in cl.todo;
    flat := if unread then Flat(w'.shards) else Flat(w.shards);
    forall k ensures ReadOff(hash, flat, WholeParts() - cl.todo, cl.result, k) {
      assert ReadOff(hash, Flat(w.shards), WholeParts() - cl.todo, cl.result, k);
    }
  }

  /** A key is pending exactly if its shard is. */
  lemma WholePending<K(!new)>(hash: K -> nat, parts: set<Part<K>>)
    requires parts <= WholeParts()
    ensures forall k :: Pending(hash, parts, k) <==> Part(Index(hash, k), true, {}) in parts
  {
    forall k ensures Pending(hash, parts, k) <==> Part(Index(hash, k), true, {}) in parts {
      if p :| p in parts && Covers(hash, p, k) {
        assert p in WholeParts<K>();
      }
      assert Covers(hash, Part(Index(hash, k), true, {}), k);
    }
  }

  /** How often the contents of the map change from moment `a` to `n`. */
  ghost function Changes<K(!new), V(!new)>(ws: seq<World<K, V>>, a: nat, n: nat): nat
    requires a <= n < |ws|
    decreases n
  {
    if a == n then 0 else Changes(ws, a, n - 1) + if ws[n].shards == ws[n - 1].shards then 0 else 1
  }

  lemma {:induction false} NoChange<K(!new), V(!new)>(ws: seq<World<K, V>>, a: nat, n: nat)
    requires a <= n < |ws| && Changes(ws, a, n) == 0
    ensures Unchanged(ws, a, n)
    decreases n
  {
    if a < n {
      NoChange(ws, a, n - 1);
    }
  }

  /** The step `w` that makes the one change, or the end if there is none. */
  lemma {:induction false} TheChange<K(!new), V(!new)>(ws: seq<World<K, V>>, a: nat, n: nat) returns (w: nat)
    requires a <= n < |ws| && Changes(ws, a, n) <= 1
    ensures a <= w <= n && Unchanged(ws, a, w) && (w < n ==> Unchanged(ws, w + 1, n))
    decreases n
  {
    if a == n {
      w := n;
    } else if ws[n].shards != ws[n - 1].shards {
      w := n - 1;
      NoChange(ws, a, n - 1);
    } else {
      w := TheChange(ws, a, n - 1);
      w := if w == n - 1 then n else w;
    }
  }

  /** A call that is under way at moment `n` has been since the step after `since`. */
  lemma {:induction false} TheCall<K(!new), V(!new)>(
    hash: K -> nat, ws: seq<World<K, V>>, who: seq<nat>, steps: seq<Step<K, V>>, n: nat, c: nat)
    requires Trace(hash, ws, who, steps) && n < |ws| && c < |ws[n].clients| && ws[n].clients[c].Gathering?
    ensures var cl := ws[n].clients[c]; var a := cl.since + 1;
            && a <= n && ws[a].shards == ws[cl.since].shards && StaysIn(who, steps, c, a, n)
            && c < |ws[a].clients| && ws[a].clients[c] == Gathering(cl.asked, cl.asked, map[], cl.since)
  {
    if n > 0 {
      assert Takes(hash, ws[n - 1], n - 1, who[n - 1], steps[n - 1], ws[n]);
      if !(who[n - 1] == c && steps[n - 1].CallGather?) {
        TheCall(hash, ws, who, steps, n - 1, c);
      }
    }
  }

  /** A call of Items that has done all its sections. */
  ghost predicate DoneItems<K(!new), V(!new)>(w: World<K, V>, c: nat) {
    c < |w.clients| && w.clients[c].Gathering? && w.clients[c].asked == WholeParts() && w.clients[c].todo == {}
  }

  /** The result is what the map held at some moment of the call. */
  ghost predicate IsSnapshot<K(!new), V(!new)>(ws: seq<World<K, V>>, n: nat, c: nat)
    requires n < |ws| && DoneItems(ws[n], c)
  {
    var cl := ws[n].clients[c];
    exists m :: cl.since <= m <= n && cl.result == Flat(ws[m].shards)
  }

  /** If the map changes at most once during the call, the result of Items is a snapshot. */
  lemma OneChangeItems<K(!new), V(!new)>(
    hash: K -> nat, ws: seq<World<K, V>>, who: seq<nat>, steps: seq<Step<K, V>>, n: nat, c: nat)
    requires Trace(hash, ws, who, steps) && n < |ws| && DoneItems(ws[n], c)
    requires ws[n].clients[c].since <= n && Changes(ws, ws[n].clients[c].since, n) <= 1
    ensures IsSnapshot(ws, n, c)
  {
    TheCall(hash, ws, who, steps, n, c);
    var since := ws[n].clients[c].since;
    var w := TheChange(ws, since, n);
    if w == n || w == since {
      QuietItems(hash, ws, who, steps, c, since + 1, n);
    } else {
      var flat := OneWriteItems(hash, ws, who, steps, c, since + 1, w, n);
      assert flat == Flat(ws[w].shards) || flat == Flat(ws[w + 1].shards);
    }
  }

  /** The case of a change in step `w` of the call. */
  lemma OneWriteItems<K(!new), V(!new)>(
    hash: K -> nat, ws: seq<World<K, V>>, who: seq<nat>, steps: seq<Step<K, V>>, c: nat, a: nat, w: nat, n: nat)
    returns (flat: map<K, V>)
    requires Trace(hash, ws, who, steps) && a <= w < n < |ws| && StaysIn(who, steps, c, a, n)
    requires Unchanged(ws, a, w) && Unchanged(ws, w + 1, n) && DoneItems(ws[n], c)
    requires c < |ws[a].clients|
    requires var cl := ws[a].clients[c];
             cl.Gathering? && cl.asked == WholeParts() && cl.todo == cl.asked && cl.result == map[]
    ensures ws[n].clients[c].result == flat && (flat == Flat(ws[w].shards) || flat == Flat(ws[w + 1].shards))
  {
    TraceSettles(hash, ws, who, steps, a);
    StartsOnTrack(hash, ws[a], c);
    StaysOnTrack(hash, Flat(ws[a].shards), ws, who, steps, c, a, w, WholeParts());
    TraceSettles(hash, ws, who, steps, w);
    assert Takes(hash, ws[w], w, who[w], steps[w], ws[w + 1]);
    if steps[w].Scatter? || steps[w].Other? {
      flat := WriteOnTrack(hash, ws[w], w, who[w], steps[w], ws[w + 1], c);
    } else {
      flat := Flat(ws[w].shards);
      StaysOnTrack(hash, flat, ws, who, steps, c, w, w + 1, WholeParts());
    }
    StaysOnTrack(hash, flat, ws, who, steps, c, w + 1, n, WholeParts());
    EndsOnTrack(hash, flat, ws[n], c);
  }

  // ---- and if two happen ----

  /** How many of the steps are write sections. */
  ghost function Writes<K(!new), V(!new)>(steps: seq<Step<K, V>>): nat {
    if steps == [] then 0
    else
      var st := steps[|steps| - 1];
      Writes(steps[..|steps| - 1]) + if st.Scatter? || st.Other? then 1 else 0
  }

  /** Only write sections change the map. */
  lemma ChangeIsWrite<K(!new), V(!new)>(
    hash: K -> nat, w: World<K, V>, now: nat, c: nat, st: Step<K, V>, w': World<K, V>)
    requires Takes(hash, w, now, c, st, w') && w'.shards != w.shards
    ensures st.Scatter? || st.Other?
  {}

  lemma WritesOfLonger<K(!new), V(!new)>(steps: seq<Step<K, V>>, a: nat, n: nat)
    requires a < n <= |steps|
    ensures var st := steps[n - 1];
            Writes(steps[a..n]) == Writes(steps[a..n - 1]) + if st.Scatter? || st.Other? then 1 else 0
  {
    assert steps[a..n][..n - 1 - a] == steps[a..n - 1];
  }

  ghost predicate WroteIfChanged<K(!new), V(!new)>(ws: seq<World<K, V>>, steps: seq<Step<K, V>>, j: nat)
    requires j < |steps| < |ws|
  {
    ws[j + 1].shards == ws[j].shards || steps[j].Scatter? || steps[j].Other?
  }

  lemma {:induction false} FewerChanges<K(!new), V(!new)>(ws: seq<World<K, V>>, steps: seq<Step<K, V>>, a: nat, n: nat)
    requires a <= n <= |steps| < |ws| && forall j :: 0 <= j < |steps| ==> WroteIfChanged(ws, steps, j)
    ensures Changes(ws, a, n) <= Writes(steps[a..n])
    decreases n
  {
    if a < n {
      FewerChanges(ws, steps, a, n - 1);
      WritesOfLonger(steps, a, n);
      assert WroteIfChanged(ws, steps, n - 1);
    }
  }

  lemma ChangesAreWrites<K(!new), V(!new)>(
    hash: K -> nat, ws: seq<World<K, V>>, who: seq<nat>, steps: seq<Step<K, V>>, a: nat, n: nat)
    requires Trace(hash, ws, who, steps) && a <= n < |ws|
    ensures Changes(ws, a, n) <= Writes(steps[a..n])
  {
    forall j | 0 <= j < |steps| ensures WroteIfChanged(ws, steps, j) {
      assert Takes(hash, ws[j], j, who[j], steps[j], ws[j + 1]);
      if ws[j + 1].shards != ws[j].shards {
        ChangeIsWrite(hash, ws[j], j, who[j], steps[j], ws[j + 1]);
      }
    }
    FewerChanges(ws, steps, a, n);
  }

  function Same(k: nat): nat { k }

  /** Shard contents with key 0 and key 1 stored or not. */
  ghost function Shards(zero: bool, one: bool): (ss: seq<map<nat, nat>>)
    ensures |ss| == SHARD_COUNT && Placed(Same, ss)
    ensures forall i :: 0 <= i < SHARD_COUNT ==>
      ss[i] == if i == 0 && zero then map[0 := 7] else if i == 1 && one then map[1 := 7] else map[]
  {
    seq(SHARD_COUNT, i => if i == 0 && zero then map[0 := 7] else if i == 1 && one then map[1 := 7] else map[])
  }

  lemma FlatShards(zero: bool, one: bool)
    ensures Lookup(Flat(Shards(zero, one)), 0) == if zero then Some(7) else None
    ensures Lookup(Flat(Shards(zero, one)), 1) == if one then Some(7) else None
  {
    FlatAt(Same, Shards(zero, one));
    assert Index(Same, 0) == 0 && Index(Same, 1) == 1;
  }

  /** Key 1 is never there without key 0. */
  ghost predicate InOrder(w: World<nat, nat>) {
    exists zero, one :: w.shards == Shards(zero, one) && (one ==> zero)
  }

  function PartsFrom(i: nat): set<Part<nat>> {
    set j | j in Below(SHARD_COUNT) && j >= i :: Part(j, true, {})
  }

  lemma PartsFromStep(i: nat)
    requires i < SHARD_COUNT
    ensures Part(i, true, {}) in PartsFrom(i) && PartsFrom(i) - {Part(i, true, {})} == PartsFrom(i + 1)
    ensures PartsFrom(0) == WholeParts() && PartsFrom(SHARD_COUNT) == {}
  {
    assert Part(i, true, {}) in PartsFrom(i);
    forall p | p in PartsFrom(i + 1) ensures p in PartsFrom(i) && p != Part(i, true, {}) {
      assert Part(p.shard, true, {}) == p;
    }
    forall p | p in PartsFrom(i) && p != Part(i, true, {}) ensures p in PartsFrom(i + 1) {
      assert Part(p.shard, true, {}) == p;
    }
  }

  /** A trace in which client 0 is inside Items and client 1 does single writes. */
  ghost predicate Going(
    ws: seq<World<nat, nat>>, who: seq<nat>, steps: seq<Step<nat, nat>>, zero: bool, one: bool, i: nat,
    result: map<nat, nat>)
  {
    && Trace(Same, ws, who, steps) && (forall m :: 0 <= m < |ws| ==> InOrder(ws[m]))
    && ws[|steps|] == World(Shards(zero, one), [Gathering(WholeParts(), PartsFrom(i), result, 0), Idle])
    && Writes(steps) == (if zero then 1 else 0) + if one then 1 else 0
  }

  lemma Extend(
    ws: seq<World<nat, nat>>, who: seq<nat>, steps: seq<Step<nat, nat>>, c: nat, st: Step<nat, nat>, w: World<nat, nat>)
    requires Trace(Same, ws, who, steps) && (forall m :: 0 <= m < |ws| ==> InOrder(ws[m]))
    requires Takes(Same, ws[|steps|], |steps|, c, st, w) && InOrder(w)
    ensures Trace(Same, ws + [w], who + [c], steps + [st])
    ensures forall m :: 0 <= m < |ws + [w]| ==> InOrder((ws + [w])[m])
    ensures Writes(steps + [st]) == Writes(steps) + if st.Scatter? || st.Other? then 1 else 0
  {
    assert (steps + [st])[..|steps|] == steps;
    var vs, os, ts := ws + [w], who + [c], steps + [st];
    forall n | 0 <= n < |ts| ensures Takes(Same, vs[n], n, os[n], ts[n], vs[n + 1]) {
      if n < |steps| {
        assert Takes(Same, ws[n], n, who[n], steps[n], ws[n + 1]);
      }
    }
  }

  /** What a section on a whole shard finds. */
  function AllOf(m: map<nat, nat>): (got: map<nat, Option<nat>>)
    ensures got.Keys == m.Keys && forall k :: k in m ==> got[k] == Some(m[k])
  {
    map k | k in m :: Some(m[k])
  }

  lemma FoundAll(m: map<nat, nat>)
    ensures Found(AllOf(m)) == m
  {}

  lemma ReadNext(
    ws: seq<World<nat, nat>>, who: seq<nat>, steps: seq<Step<nat, nat>>, zero: bool, one: bool, i: nat,
    result: map<nat, nat>)
    returns (vs: seq<World<nat, nat>>, os: seq<nat>, ts: seq<Step<nat, nat>>)
    requires Going(ws, who, steps, zero, one, i, result) && i < SHARD_COUNT && (one ==> zero)
    ensures Going(vs, os, ts, zero, one, i + 1, result + Shards(zero, one)[i])
  {
    var ss, p := Shards(zero, one), Part(i, true, {});
    var got := AllOf(ss[i]);
    var w := World(ss, [Gathering(WholeParts(), PartsFrom(i + 1), result + ss[i], 0), Idle]);
    PartsFromStep(i);
    FoundAll(ss[i]);
    var st: Step<nat, nat> := Gather(p, got, false);
    var c := ws[|steps|];
    assert w.clients == c.clients[0 := c.clients[0].(todo := c.clients[0].todo - {p}, result := result + Found(got))];
    assert Section(ss, ReadDone(0, i, true, got), ss);
    assert InOrder(w);
    Extend(ws, who, steps, 0, st, w);
    vs, os, ts := ws + [w], who + [0], steps + [st];
  }

  function StoreSeven(k: nat): Body<nat, nat> { m => [Put(k, 7)] }

  lemma StoreNext(
    ws: seq<World<nat, nat>>, who: seq<nat>, steps: seq<Step<nat, nat>>, zero: bool, i: nat, result: map<nat, nat>)
    returns (vs: seq<World<nat, nat>>, os: seq<nat>, ts: seq<Step<nat, nat>>)
    requires Going(ws, who, steps, zero, false, i, result)
    ensures Going(vs, os, ts, true, zero, i, result)
  {
    var k := if zero then 1 else 0;
    var w := World(Shards(true, zero), ws[|steps|].clients);
    StoredInOrder(zero);
    StoreSevenEverywhere(k);
    assert InOrder(w);
    var st: Step<nat, nat> := Other(k, StoreSeven(k));
    Extend(ws, who, steps, 1, st, w);
    vs, os, ts := ws + [w], who + [1], steps + [st];
  }

  lemma StoreSevenEverywhere(k: nat)
    ensures forall m: map<nat, nat> :: ApplyAll(StoreSeven(k)(m), m) == m[k := 7]
  {
    forall m: map<nat, nat> ensures ApplyAll(StoreSeven(k)(m), m) == m[k := 7] {
      assert [Put(k, 7)][..0] == [];
    }
  }

  lemma StoredInOrder(zero: bool)
    ensures var k, ss := if zero then 1 else 0, Shards(zero, false);
            Index(Same, k) == k && WroteSection(ss, 1, k, StoreSeven(k), Shards(true, zero))
  {
    var k, ss := if zero then 1 else 0, Shards(zero, false);
    StoreSevenEverywhere(k);
    assert map[][k := 7] == map[k := 7];
    assert Shards(true, zero) == ss[k := ApplyAll(StoreSeven(k)(ss[k]), ss[k])];
  }

  lemma {:induction false} ReadToEnd(
    ws: seq<World<nat, nat>>, who: seq<nat>, steps: seq<Step<nat, nat>>, i: nat, result: map<nat, nat>)
    returns (vs: seq<World<nat, nat>>, os: seq<nat>, ts: seq<Step<nat, nat>>)
    requires Going(ws, who, steps, true, true, i, result) && 2 <= i <= SHARD_COUNT
    ensures Going(vs, os, ts, true, true, SHARD_COUNT, result)
    decreases SHARD_COUNT - i
  {
    if i == SHARD_COUNT {
      vs, os, ts := ws, who, steps;
    } else {
      vs, os, ts := ReadNext(ws, who, steps, true, true, i, result);
      assert result + Shards(true, true)[i] == result;
      vs, os, ts := ReadToEnd(vs, os, ts, i + 1, result);
    }
  }

  ghost const ATSTART := World(Shards(false, false), [Idle, Idle])
  ghost const CALLED := World(Shards(false, false), [Gathering(WholeParts(), WholeParts(), map[], 0), Idle])

  lemma BeginTakes()
    ensures Takes(Same, ATSTART, 0, 0, CallGather(WholeParts()), CALLED)
  {
    assert CALLED.clients == ATSTART.clients[0 := CALLED.clients[0]];
  }

  lemma Begin() returns (ws: seq<World<nat, nat>>, who: seq<nat>, steps: seq<Step<nat, nat>>)
    ensures Going(ws, who, steps, false, false, 0, map[])
  {
    assert InOrder(ATSTART) && InOrder(CALLED);
    PartsFromStep(0);
    BeginTakes();
    Extend([ATSTART], [], [], 0, CallGather(WholeParts()), CALLED);
    ws, who, steps := [ATSTART] + [CALLED], [] + [0], [] + [CallGather(WholeParts())];
  }

  /** Items reads the first shard, then key 0 is stored there and key 1 in the second. */
  lemma StoredTooLate() returns (ws: seq<World<nat, nat>>, who: seq<nat>, steps: seq<Step<nat, nat>>)
    ensures Going(ws, who, steps, true, true, 1, map[])
  {
    ws, who, steps := Begin();
    ws, who, steps := ReadNext(ws, who, steps, false, false, 0, map[]);
    assert map[] + Shards(false, false)[0] == map[];
    ws, who, steps := StoreNext(ws, who, steps, false, 1, map[]);
    ws, who, steps := StoreNext(ws, who, steps, true, 1, map[]);
  }

  /** A run in which Items returns what the map held at no moment: it has read the first
      shard before key 0 is stored there, and reads the second after key 1 is stored too. */
  lemma ItemsIsNoSnapshot() returns (ws: seq<World<nat, nat>>, who: seq<nat>, steps: seq<Step<nat, nat>>)
    ensures Trace(Same, ws, who, steps) && Writes(steps) == 2 && DoneItems(ws[|steps|], 0)
    ensures ws[|steps|].clients[0].since == 0
    ensures forall m :: 0 <= m < |ws| ==> ws[|steps|].clients[0].result != Flat(ws[m].shards)
  {
    ws, who, steps := StoredTooLate();
    ws, who, steps := ReadNext(ws, who, steps, true, true, 1, map[]);
    assert map[] + Shards(true, true)[1] == map[1 := 7];
    ws, who, steps := ReadToEnd(ws, who, steps, 2, map[1 := 7]);
    OneAloneAtEnd(ws, who, steps);
  }

  lemma OneAloneAtEnd(ws: seq<World<nat, nat>>, who: seq<nat>, steps: seq<Step<nat, nat>>)
    requires Going(ws, who, steps, true, true, SHARD_COUNT, map[1 := 7])
    ensures DoneItems(ws[|steps|], 0)
    ensures forall m :: 0 <= m < |ws| ==> ws[|steps|].clients[0].result != Flat(ws[m].shards)
  {
    PartsFromStep(0);
    forall m | 0 <= m < |ws| ensures map[1 := 7] != Flat(ws[m].shards) {
      NeverOneAlone(ws[m]);
    }
  }

  lemma NeverOneAlone(w: World<nat, nat>)
    requires InOrder(w)
    ensures Flat(w.shards) != map[1 := 7]
  {
    var zero, one :| w.shards == Shards(zero, one) && (one ==> zero);
    FlatShards(zero, one);
    assert Lookup(map[1 := 7], 1) == Some(7) && Lookup(map[1 := 7], 0) == None;
  }

  // ---- the threshold ----

  /** A call of Items is a snapshot if at most `most` write sections end during it. */
  ghost predicate SnapshotIfFew<K(!new), V(!new)>(
    hash: K -> nat, most: nat, ws: seq<World<K, V>>, who: seq<nat>, steps: seq<Step<K, V>>, n: nat, c: nat)
  {
    Trace(hash, ws, who, steps) && n < |ws| && DoneItems(ws[n], c) ==>
      && ws[n].clients[c].since < n
      && (Writes(steps[ws[n].clients[c].since..n]) <= most ==> IsSnapshot(ws, n, c))
  }

  /** Items is a snapshot in every interleaving in which at most `most` write sections
      end during the call. */
  ghost predicate SnapshotUpTo<K(!new), V(!new)>(hash: K -> nat, most: nat) {
    forall ws: seq<World<K, V>>, who, steps, n, c :: SnapshotIfFew(hash, most, ws, who, steps, n, c)
  }

  lemma SnapshotUpToOne<K(!new), V(!new)>(hash: K -> nat, most: nat)
    requires most <= 1
    ensures SnapshotUpTo<K, V>(hash, most)
  {
    forall ws: seq<World<K, V>>, who, steps, n: nat, c: nat |
      Trace(hash, ws, who, steps) && n < |ws| && DoneItems(ws[n], c)
      ensures SnapshotIfFew(hash, most, ws, who, steps, n, c)
    {
      TheCall(hash, ws, who, steps, n, c);
      var since := ws[n].clients[c].since;
      ChangesAreWrites(hash, ws, who, steps, since, n);
      if Writes(steps[since..n]) <= most {
        OneChangeItems(hash, ws, who, steps, n, c);
      }
    }
  }

  /** Items is a snapshot with up to one write section during the call, and with two it
      need not be. */
  lemma SnapshotExact(most: nat)
    ensures SnapshotUpTo<nat, nat>(Same, most) <==> most <= 1
  {
    if most <= 1 {
      SnapshotUpToOne<nat, nat>(Same, most);
    } else {
      var ws, who, steps := ItemsIsNoSnapshot();
      var n := |steps|;
      assert steps[0..n] == steps;
      assert !SnapshotIfFew(Same, most, ws, who, steps, n, 0);
    }
  }
}
