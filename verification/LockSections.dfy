/** Threads that enter the shards through read-write locks and touch one key at a
    time. Every schedule is one of atomic lock sections: a read section answers all
    its keys from one moment, a write section takes effect at its unlock. */
module LockSections {
  import opened Wrappers
  import opened ShardSpec

  /** One write to the map of a shard. */
  datatype Write<K, V> = Put(k: K, v: V) | Del(k: K) | Swap(m: map<K, V>)

  function Apply<K, V>(w: Write<K, V>, m: map<K, V>): map<K, V> {
    match w
    case Put(k, v) => m[k := v]
    case Del(k) => m - {k}
    case Swap(n) => n
  }

  function ApplyAll<K, V>(ws: seq<Write<K, V>>, m: map<K, V>): map<K, V> {
    if ws == [] then m else Apply(ws[|ws| - 1], ApplyAll(ws[..|ws| - 1], m))
  }

  /** What a writer does with a shard: it looks at the map and then makes some writes. */
  type Body<!K, !V> = map<K, V> -> seq<Write<K, V>>

  datatype Thread<!K, !V> =
    | Outside
    | Reading(shard: nat, all: bool, keys: seq<K>, next: nat, got: map<K, Option<V>>)
    | Deciding(shard: nat, body: Body<K, V>)
    | Writing(shard: nat, body: Body<K, V>, seen: map<K, V>, writes: seq<Write<K, V>>, next: nat)

  /** `committed` is auxiliary: the maps as the last write section left them. */
  datatype State<!K, !V> = State(
    items: seq<map<K, V>>,
    committed: seq<map<K, V>>,
    writer: seq<Option<nat>>,
    readers: seq<set<nat>>,
    threads: seq<Thread<K, V>>)

  /** What the outside sees of a step. A reader of `all` asks for every key there is, in
      some order. A writer answers from the map it has seen. */
  datatype Event<!K, !V> =
    | Internal
    | ReadDone(thread: nat, shard: nat, all: bool, got: map<K, Option<V>>)
    | WriteDone(thread: nat, shard: nat, body: Body<K, V>, seen: map<K, V>)

  datatype Action<!K, !V> =
    | RLock(shard: nat, all: bool, keys: seq<K>)
    | ReadKey
    | RUnlock
    | Lock(shard: nat, body: Body<K, V>)
    | Decide
    | WriteKey
    | Unlock
    | Local      // anything that touches neither locks nor shards

  ghost predicate Sized<K(!new), V>(s: State<K, V>) {
    |s.items| == |s.committed| == |s.writer| == |s.readers| == SHARD_COUNT
  }

  /** Whether thread `t` can take the action: only taking a lock ever waits. */
  ghost predicate Enabled<K(!new), V>(s: State<K, V>, t: nat, a: Action<K, V>)
    requires Sized(s)
  {
    && t < |s.threads|
    && var th := s.threads[t];
       match a
       case RLock(i, all, keys) =>
         && th.Outside? && i < SHARD_COUNT && s.writer[i].None?
         && (all ==> forall k :: k in keys <==> k in s.items[i])
       case ReadKey => th.Reading? && th.next < |th.keys| && th.shard < SHARD_COUNT
       case RUnlock => th.Reading? && th.next >= |th.keys| && th.shard < SHARD_COUNT
       case Lock(i, body) => th.Outside? && i < SHARD_COUNT && s.writer[i].None? && s.readers[i] == {}
       case Decide => th.Deciding? && th.shard < SHARD_COUNT
       case WriteKey => th.Writing? && th.next < |th.writes| && th.shard < SHARD_COUNT
       case Unlock => th.Writing? && th.next >= |th.writes| && th.shard < SHARD_COUNT
       case Local => true
  }

  ghost function After<K(!new), V>(s: State<K, V>, t: nat, a: Action<K, V>): State<K, V>
    requires Sized(s) && Enabled(s, t, a)
  {
    var th := s.threads[t];
    match a
    case RLock(i, all, keys) =>
      s.(readers := s.readers[i := s.readers[i] + {t}], threads := s.threads[t := Reading(i, all, keys, 0, map[])])
    case ReadKey =>
      var k := th.keys[th.next];
      s.(threads := s.threads[t := th.(next := th.next + 1, got := th.got[k := Lookup(s.items[th.shard], k)])])
    case RUnlock =>
      s.(readers := s.readers[th.shard := s.readers[th.shard] - {t}], threads := s.threads[t := Outside])
    case Lock(i, body) =>
      s.(writer := s.writer[i := Some(t)], threads := s.threads[t := Deciding(i, body)])
    case Decide =>
      var seen := s.items[th.shard];
      s.(threads := s.threads[t := Writing(th.shard, th.body, seen, th.body(seen), 0)])
    case WriteKey =>
      var i := th.shard;
      s.(items := s.items[i := Apply(th.writes[th.next], s.items[i])],
         threads := s.threads[t := th.(next := th.next + 1)])
    case Unlock =>
      var i := th.shard;
      s.(writer := s.writer[i := None], committed := s.committed[i := s.items[i]], threads := s.threads[t := Outside])
    case Local => s
  }

  ghost function EventOf<K(!new), V>(s: State<K, V>, t: nat, a: Action<K, V>): Event<K, V>
    requires Sized(s) && Enabled(s, t, a)
  {
    var th := s.threads[t];
    match a
    case RUnlock => ReadDone(t, th.shard, th.all, th.got)
    case Unlock => WriteDone(t, th.shard, th.body, th.seen)
    case _ => Internal
  }

  /** The keys a reader has answered so far. */
  ghost predicate Answered<K(!new), V>(m: map<K, V>, keys: seq<K>, next: nat, got: map<K, Option<V>>) {
    && next <= |keys|
    && (forall k :: k in got <==> k in keys[..next])
    && (forall k :: k in got ==> got[k] == Lookup(m, k))
  }

  ghost predicate ThreadOk<K(!new), V>(s: State<K, V>, t: nat)
    requires Sized(s) && t < |s.threads|
  {
    match s.threads[t]
    case Outside => true
    case Reading(i, all, keys, next, got) =>
      && i < SHARD_COUNT && t in s.readers[i] && Answered(s.committed[i], keys, next, got)
      && (all ==> forall k :: k in keys <==> k in s.committed[i])
    case Deciding(i, body) =>
      i < SHARD_COUNT && s.writer[i] == Some(t) && s.items[i] == s.committed[i]
    case Writing(i, body, seen, writes, next) =>
      && i < SHARD_COUNT && s.writer[i] == Some(t) && seen == s.committed[i]
      && writes == body(seen) && next <= |writes|
      && s.items[i] == ApplyAll(writes[..next], s.committed[i])
  }

  ghost predicate HoldsRead<K(!new), V>(th: Thread<K, V>, i: nat) { th.Reading? && th.shard == i }

  ghost predicate HoldsWrite<K(!new), V>(th: Thread<K, V>, i: nat) {
    (th.Deciding? || th.Writing?) && th.shard == i
  }

  /** Readers and a writer never hold one lock together, and without a writer the
      map is the committed one. */
  ghost predicate ShardOk<K(!new), V>(s: State<K, V>, i: nat)
    requires Sized(s) && i < SHARD_COUNT
  {
    && (forall t :: t in s.readers[i] ==> t < |s.threads| && HoldsRead(s.threads[t], i))
    && (s.writer[i].Some? ==>
          s.readers[i] == {} && s.writer[i].value < |s.threads| && HoldsWrite(s.threads[s.writer[i].value], i))
    && (s.writer[i].None? ==> s.items[i] == s.committed[i])
  }

  ghost predicate Inv<K(!new), V>(s: State<K, V>) {
    && Sized(s)
    && (forall t :: 0 <= t < |s.threads| ==> ThreadOk(s, t))
    && (forall i :: 0 <= i < SHARD_COUNT ==> ShardOk(s, i))
  }

  ghost predicate Init<K(!new), V>(s: State<K, V>) {
    && Sized(s) && s.items == s.committed
    && (forall i :: 0 <= i < SHARD_COUNT ==> s.writer[i] == None && s.readers[i] == {})
    && (forall t :: 0 <= t < |s.threads| ==> s.threads[t] == Outside)
  }

  /** The atomic machine: whole lock sections on a list of maps. */
  ghost predicate Section<K(!new), V>(a: seq<map<K, V>>, e: Event<K, V>, b: seq<map<K, V>>) {
    match e
    case Internal => b == a
    case ReadDone(t, i, all, got) =>
      && b == a && i < |a| && (all ==> got.Keys == a[i].Keys)
      && forall k :: k in got ==> got[k] == Lookup(a[i], k)
    case WriteDone(t, i, body, seen) => i < |a| && seen == a[i] && b == a[i := ApplyAll(body(seen), seen)]
  }

  lemma OtherThread<K(!new), V>(s: State<K, V>, t: nat, a: Action<K, V>, u: nat)
    requires Inv(s) && Enabled(s, t, a) && u < |s.threads| && u != t
    ensures ThreadOk(After(s, t, a), u)
  {
    assert ThreadOk(s, t) && ThreadOk(s, u);
    var th := s.threads[t];
    if !a.Local? {
      var i := if a.RLock? || a.Lock? then a.shard else th.shard;
      assert ShardOk(s, i);
    }
  }

  lemma OwnThread<K(!new), V>(s: State<K, V>, t: nat, a: Action<K, V>)
    requires Inv(s) && Enabled(s, t, a)
    ensures ThreadOk(After(s, t, a), t)
  {
    assert ThreadOk(s, t);
    var th := s.threads[t];
    match a {
      case RLock(i, all, keys) =>
        assert ShardOk(s, i);
        assert keys[..0] == [];
      case ReadKey =>
        assert ShardOk(s, th.shard);
        assert th.keys[..th.next + 1] == th.keys[..th.next] + [th.keys[th.next]];
      case Lock(i, body) => assert ShardOk(s, i);
      case WriteKey =>
        var ws := th.writes[..th.next + 1];
        assert ws[..|ws| - 1] == th.writes[..th.next];
      case _ =>
    }
  }

  lemma EveryShard<K(!new), V>(s: State<K, V>, t: nat, a: Action<K, V>, i: nat)
    requires Inv(s) && Enabled(s, t, a) && i < SHARD_COUNT
    ensures ShardOk(After(s, t, a), i)
  {
    assert ThreadOk(s, t) && ShardOk(s, i);
    var th := s.threads[t];
    if a.Unlock? {
      assert th.writes[..th.next] == th.writes;
    }
  }

  /** Every action keeps the invariant, and is a section of the atomic machine or
      invisible to it. */
  lemma StepRefines<K(!new), V>(s: State<K, V>, t: nat, a: Action<K, V>)
    requires Inv(s) && Enabled(s, t, a)
    ensures Inv(After(s, t, a))
    ensures Section(s.committed, EventOf(s, t, a), After(s, t, a).committed)
  {
    var r := After(s, t, a);
    forall u | 0 <= u < |r.threads| ensures ThreadOk(r, u) {
      if u == t { OwnThread(s, t, a); } else { OtherThread(s, t, a, u); }
    }
    forall i | 0 <= i < SHARD_COUNT ensures ShardOk(r, i) {
      EveryShard(s, t, a, i);
    }
    assert ThreadOk(s, t);
    var th := s.threads[t];
    if a.Unlock? {
      assert th.writes[..th.next] == th.writes;
    } else if a.RUnlock? {
      assert th.keys[..th.next] == th.keys;
    }
  }

  // ---- whole runs ----

  /** `sched[j]` says which thread took which action from `states[j]`. */
  ghost predicate IsRun<K(!new), V>(states: seq<State<K, V>>, sched: seq<(nat, Action<K, V>)>) {
    && |states| == |sched| + 1
    && Init(states[0])
    && forall j :: 0 <= j < |sched| ==>
      && Sized(states[j]) && Enabled(states[j], sched[j].0, sched[j].1)
      && states[j + 1] == After(states[j], sched[j].0, sched[j].1)
  }

  ghost function EventAt<K(!new), V>(states: seq<State<K, V>>, sched: seq<(nat, Action<K, V>)>, j: nat): Event<K, V>
    requires IsRun(states, sched) && j < |sched|
  {
    EventOf(states[j], sched[j].0, sched[j].1)
  }

  lemma {:induction false} RunKeepsInv<K(!new), V>(states: seq<State<K, V>>, sched: seq<(nat, Action<K, V>)>, j: nat)
    requires IsRun(states, sched) && j <= |sched|
    ensures Inv(states[j])
  {
    if j > 0 {
      RunKeepsInv(states, sched, j - 1);
      StepRefines(states[j - 1], sched[j - 1].0, sched[j - 1].1);
    }
  }

  /** Every schedule of lock and key operations is a run of atomic sections. */
  lemma RunRefines<K(!new), V>(states: seq<State<K, V>>, sched: seq<(nat, Action<K, V>)>)
    requires IsRun(states, sched)
    ensures forall j :: 0 <= j < |sched| ==>
      Section(states[j].committed, EventAt(states, sched, j), states[j + 1].committed)
  {
    forall j | 0 <= j < |sched|
      ensures Section(states[j].committed, EventAt(states, sched, j), states[j + 1].committed)
    {
      RunKeepsInv(states, sched, j);
      StepRefines(states[j], sched[j].0, sched[j].1);
    }
  }

  /** A thread inside a section can always go on: only taking a lock waits. */
  lemma InsideGoesOn<K(!new), V>(s: State<K, V>, t: nat) returns (a: Action<K, V>)
    requires Inv(s) && t < |s.threads| && !s.threads[t].Outside?
    ensures Enabled(s, t, a) && !a.RLock? && !a.Lock? && !a.Local?
  {
    assert ThreadOk(s, t);
    match s.threads[t]
    case Reading(i, all, keys, next, got) => a := if next < |keys| then ReadKey else RUnlock;
    case Deciding(i, body) => a := Decide;
    case Writing(i, body, seen, writes, next) => a := if next < |writes| then WriteKey else Unlock;
  }

  /** A thread outside can enter, or waits for one that is inside the shard, as a writer if it
      only wants to read. */
  lemma EntersOrWaits<K(!new), V(!new)>(s: State<K, V>, t: nat, i: nat, keys: seq<K>, body: Body<K, V>)
    requires Inv(s) && t < |s.threads| && s.threads[t].Outside? && i < SHARD_COUNT
    ensures Enabled(s, t, RLock(i, false, keys)) || exists u :: 0 <= u < |s.threads| && HoldsWrite(s.threads[u], i)
    ensures Enabled(s, t, Lock(i, body)) ||
      exists u :: 0 <= u < |s.threads| && (HoldsWrite(s.threads[u], i) || HoldsRead(s.threads[u], i))
  {
    assert ShardOk(s, i);
    if s.writer[i].Some? {
      assert HoldsWrite(s.threads[s.writer[i].value], i);
    } else if s.readers[i] != {} {
      var u :| u in s.readers[i];
      assert HoldsRead(s.threads[u], i);
    }
  }

  /** No two threads hold one shard's lock if one of them writes. */
  lemma MutualExclusion<K(!new), V>(s: State<K, V>, t: nat, u: nat, i: nat)
    requires Inv(s) && t < |s.threads| && u < |s.threads| && i < SHARD_COUNT
    requires HoldsWrite(s.threads[t], i) && (HoldsRead(s.threads[u], i) || HoldsWrite(s.threads[u], i))
    ensures t == u
  {
    assert ThreadOk(s, t) && ThreadOk(s, u) && ShardOk(s, i);
  }

  ghost predicate WritesShard<K(!new), V>(e: Event<K, V>, i: nat) { e.WriteDone? && e.shard == i }

  lemma {:induction false} QuietShard<K(!new), V>(
    states: seq<State<K, V>>, sched: seq<(nat, Action<K, V>)>, i: nat, p: nat, q: nat)
    requires IsRun(states, sched) && i < SHARD_COUNT && p <= q <= |sched|
    requires forall j :: p <= j < q ==> !WritesShard(EventAt(states, sched, j), i)
    ensures Sized(states[p]) && Sized(states[q]) && states[p].committed[i] == states[q].committed[i]
  {
    RunKeepsInv(states, sched, q);
    if p < q {
      QuietShard(states, sched, i, p, q - 1);
      RunRefines(states, sched);
      assert !WritesShard(EventAt(states, sched, q - 1), i);
    }
  }

  /** A read section that is next to a write of `data` on its shard sees all of the
      data or none of it: all if the writer unlocked first, and otherwise only what
      was there before. */
  lemma AllOrNone<K(!new), V>(
    states: seq<State<K, V>>, sched: seq<(nat, Action<K, V>)>, i: nat, data: map<K, V>, q: nat, p: nat)
    requires IsRun(states, sched) && i < SHARD_COUNT && q < |sched| && p < |sched|
    requires var e := EventAt(states, sched, q); WritesShard(e, i) && forall m :: ApplyAll(e.body(m), m) == m + data
    requires var e := EventAt(states, sched, p); e.ReadDone? && e.shard == i
    requires forall j :: (q < j < p || p <= j < q) ==> !WritesShard(EventAt(states, sched, j), i)
    ensures var got := EventAt(states, sched, p).got;
            if q < p then forall k :: k in got && k in data ==> got[k] == Some(data[k])
            else Sized(states[q]) && forall k :: k in got ==> got[k] == Lookup(states[q].committed[i], k)
  {
    RunRefines(states, sched);
    assert Section(states[q].committed, EventAt(states, sched, q), states[q + 1].committed);
    assert Section(states[p].committed, EventAt(states, sched, p), states[p + 1].committed);
    RunKeepsInv(states, sched, q);
    if q < p {
      QuietShard(states, sched, i, q + 1, p);
    } else {
      assert p != q;
      QuietShard(states, sched, i, p, q);
    }
  }

  /** Clear puts a new map into each shard: from its unlock to the next write on the shard
      that map is there. */
  lemma SwapStands<K(!new), V(!new)>(
    states: seq<State<K, V>>, sched: seq<(nat, Action<K, V>)>, i: nat, blank: map<K, V>, p: nat, q: nat)
    requires IsRun(states, sched) && i < SHARD_COUNT && p < q <= |sched|
    requires var e := EventAt(states, sched, p); WritesShard(e, i) && e.body(e.seen) == [Swap(blank)]
    requires forall j :: p < j < q ==> !WritesShard(EventAt(states, sched, j), i)
    ensures Sized(states[q]) && states[q].committed[i] == blank
  {
    RunKeepsInv(states, sched, p);
    RunRefines(states, sched);
    var e := EventAt(states, sched, p);
    assert Section(states[p].committed, e, states[p + 1].committed);
    assert [Swap(blank)][..0] == [];
    assert ApplyAll([Swap(blank)], e.seen) == blank;
    QuietShard(states, sched, i, p + 1, q);
  }
}
