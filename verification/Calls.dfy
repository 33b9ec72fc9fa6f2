/** Calls that take several lock sections, in every interleaving with any number of
    other clients: MGet and Items read shard after shard, MSet writes shard after
    shard or key after key. Sections are those of the atomic machine. */
module Calls {
  import opened Wrappers
  import opened ShardSpec
  import opened LockSections

  /** What one read section of a call asks of a shard: some keys, or everything. */
  datatype Part<K(==)> = Part(shard: nat, all: bool, ks: set<K>)

  predicate Covers<K(==)>(hash: K -> nat, p: Part<K>, k: K) {
    Index(hash, k) == p.shard && (p.all || k in p.ks)
  }

  /** `since` is the moment of the call; `todo` and `unset` are what no section has
      done yet. */
  datatype Client<K(==), V> =
    | Idle
    | Gathering(asked: set<Part<K>>, todo: set<Part<K>>, result: map<K, V>, since: nat)
    | Scattering(data: map<K, V>, unset: set<K>, since: nat)

  datatype World<K(==), V> = World(shards: seq<map<K, V>>, clients: seq<Client<K, V>>)

  /** What the one flat map answers at this moment. */
  ghost function Truth<K, V>(w: World<K, V>, k: K): Option<V> {
    Lookup(Flat(w.shards), k)
  }

  ghost function Found<K, V>(got: map<K, Option<V>>): map<K, V> {
    map k | k in got && got[k].Some? :: got[k].value
  }

  datatype Step<!K(==), !V> =
    | CallGather(asked: set<Part<K>>)
    | CallScatter(data: map<K, V>)
    | Gather(part: Part<K>, got: map<K, Option<V>>, late: bool)
    | Scatter(shard: nat, ks: set<K>, body: Body<K, V>)
    | Return
    | Other(shard: nat, body: Body<K, V>)
    | Pause

  /** A write section, whatever it has seen. */
  ghost predicate WroteSection<K(!new), V(!new)>(
    a: seq<map<K, V>>, c: nat, i: nat, body: Body<K, V>, b: seq<map<K, V>>)
  {
    i < |a| && Section(a, WriteDone(c, i, body, a[i]), b)
  }

  /** What client `c` does to the books at moment `now`: which calls are under way, and
      what is left of them. */
  ghost predicate Books<K(!new), V(!new)>(
    hash: K -> nat, cls: seq<Client<K, V>>, now: nat, c: nat, st: Step<K, V>, cls': seq<Client<K, V>>)
  {
    && c < |cls|
    && var cl := cls[c];
       match st
       case CallGather(asked) => cl.Idle? && cls' == cls[c := Gathering(asked, asked, map[], now)]
       case CallScatter(data) => cl.Idle? && cls' == cls[c := Scattering(data, data.Keys, now)]
       case Gather(p, got, late) =>
         // Several goroutines may write one result map: `late` lets either order win.
         && cl.Gathering? && p in cl.todo
         && (!p.all ==> got.Keys == set k | k in p.ks && Index(hash, k) == p.shard)
         && cls' == cls[c := cl.(todo := cl.todo - {p},
              result := if late then Found(got) + cl.result else cl.result + Found(got))]
       case Scatter(i, ks, body) =>
         && cl.Scattering? && ks <= cl.unset && ks <= cl.data.Keys && (forall k :: k in ks ==> Index(hash, k) == i)
         && (forall m :: ApplyAll(body(m), m) == m + map k | k in ks :: cl.data[k])
         && cls' == cls[c := cl.(unset := cl.unset - ks)]
       case Return =>
         && (cl.Gathering? || cl.Scattering?)
         && (cl.Gathering? ==> cl.todo == {}) && (cl.Scattering? ==> cl.unset == {})
         && cls' == cls[c := Idle]
       case Other(i, body) =>
         // Any other operation: it keeps keys in their shard.
         cls' == cls && forall m, k :: k in ApplyAll(body(m), m) ==> k in m || Index(hash, k) == i
       case Pause => cls' == cls
  }

  /** What the step does to the shards. */
  ghost predicate Works<K(!new), V(!new)>(a: seq<map<K, V>>, c: nat, st: Step<K, V>, b: seq<map<K, V>>) {
    match st
    case Gather(p, got, late) => Section(a, ReadDone(c, p.shard, p.all, got), b)
    case Scatter(i, ks, body) => WroteSection(a, c, i, body, b)
    case Other(i, body) => WroteSection(a, c, i, body, b)
    case _ => b == a
  }

  /** Client `c` takes a step at moment `now`. */
  ghost predicate Takes<K(!new), V(!new)>(
    hash: K -> nat, w: World<K, V>, now: nat, c: nat, st: Step<K, V>, w': World<K, V>)
  {
    Books(hash, w.clients, now, c, st, w'.clients) && Works(w.shards, c, st, w'.shards)
  }

  /** The moments of a run; nobody is inside a call at the start. */
  ghost predicate Trace<K(!new), V(!new)>(hash: K -> nat, ws: seq<World<K, V>>, who: seq<nat>, steps: seq<Step<K, V>>) {
    && |ws| == |steps| + 1 && |who| == |steps|
    && Placed(hash, ws[0].shards) && (forall c :: 0 <= c < |ws[0].clients| ==> ws[0].clients[c].Idle?)
    && forall n :: 0 <= n < |steps| ==> Takes(hash, ws[n], n, who[n], steps[n], ws[n + 1])
  }

  /** `answer` was the truth about `k` at some moment from `since` to `n`. */
  ghost predicate TrueBetween<K(!new), V(!new)>(ws: seq<World<K, V>>, since: nat, n: nat, k: K, answer: Option<V>)
    requires n < |ws|
  {
    exists m :: since <= m <= n && Truth(ws[m], k) == answer
  }

  ghost predicate Pending<K(!new)>(hash: K -> nat, parts: set<Part<K>>, k: K) {
    exists p :: p in parts && Covers(hash, p, k)
  }

  /** What holds for each key while a call is under way. */
  ghost predicate Settled<K(!new), V(!new)>(hash: K -> nat, ws: seq<World<K, V>>, n: nat, cl: Client<K, V>, k: K)
    requires n < |ws|
  {
    match cl
    case Idle => true
    case Gathering(asked, todo, result, since) =>
      && since <= n
      && (k in result ==> TrueBetween(ws, since, n, k, Some(result[k])))
      && (k !in result && Pending(hash, asked, k) && !Pending(hash, todo, k) ==> TrueBetween(ws, since, n, k, None))
    case Scattering(data, unset, since) =>
      && since <= n && unset <= data.Keys
      && (k in data && k !in unset ==> TrueBetween(ws, since, n, k, Some(data[k])))
  }

  ghost predicate AllSettled<K(!new), V(!new)>(hash: K -> nat, ws: seq<World<K, V>>, n: nat)
    requires n < |ws|
  {
    Placed(hash, ws[n].shards) && forall c, k :: 0 <= c < |ws[n].clients| ==> Settled(hash, ws, n, ws[n].clients[c], k)
  }

  lemma StaysTrue<K(!new), V(!new)>(ws: seq<World<K, V>>, since: nat, n: nat, k: K, answer: Option<V>)
    requires n + 1 < |ws| && TrueBetween(ws, since, n, k, answer)
    ensures TrueBetween(ws, since, n + 1, k, answer)
  {
    var m :| since <= m <= n && Truth(ws[m], k) == answer;
    assert since <= m <= n + 1;
  }

  lemma StaysSettled<K(!new), V(!new)>(hash: K -> nat, ws: seq<World<K, V>>, n: nat, cl: Client<K, V>, k: K)
    requires n + 1 < |ws| && Settled(hash, ws, n, cl, k)
    ensures Settled(hash, ws, n + 1, cl, k)
  {
    match cl
    case Idle =>
    case Gathering(asked, todo, result, since) =>
      if k in result { StaysTrue(ws, since, n, k, Some(result[k])); }
      else if Pending(hash, asked, k) && !Pending(hash, todo, k) { StaysTrue(ws, since, n, k, None); }
    case Scattering(data, unset, since) =>
      if k in data && k !in unset { StaysTrue(ws, since, n, k, Some(data[k])); }
  }

  lemma StaysPlaced<K(!new), V(!new)>(hash: K -> nat, w: World<K, V>, now: nat, c: nat, st: Step<K, V>, w': World<K, V>)
    requires Placed(hash, w.shards) && Takes(hash, w, now, c, st, w')
    ensures Placed(hash, w'.shards)
  {}

  lemma TrueNow<K(!new), V(!new)>(hash: K -> nat, ws: seq<World<K, V>>, since: nat, n: nat, k: K)
    requires n < |ws| && since <= n && Placed(hash, ws[n].shards)
    ensures TrueBetween(ws, since, n, k, Lookup(ws[n].shards[Index(hash, k)], k))
  {
    FlatAt(hash, ws[n].shards);
    assert Truth(ws[n], k) == Lookup(ws[n].shards[Index(hash, k)], k);
  }

  /** A read section settles the keys it was asked for. */
  lemma GatherSettles<K(!new), V(!new)>(hash: K -> nat, ws: seq<World<K, V>>, n: nat, c: nat, st: Step<K, V>, k: K)
    requires n + 1 < |ws| && AllSettled(hash, ws, n) && st.Gather? && Takes(hash, ws[n], n, c, st, ws[n + 1])
    ensures Settled(hash, ws, n + 1, ws[n + 1].clients[c], k)
  {
    var cl, p, got := ws[n].clients[c], st.part, st.got;
    var cl' := ws[n + 1].clients[c];
    assert Settled(hash, ws, n, cl, k);
    StaysSettled(hash, ws, n, cl, k);
    TrueNow(hash, ws, cl.since, n, k);
    StaysTrue(ws, cl.since, n, k, Lookup(ws[n].shards[Index(hash, k)], k));
    if k in got {
      assert Index(hash, k) == p.shard && got[k] == Lookup(ws[n].shards[p.shard], k);
    } else if Covers(hash, p, k) {
      assert Lookup(ws[n].shards[Index(hash, k)], k) == None;
    } else if Pending(hash, cl.todo, k) {
      var q :| q in cl.todo && Covers(hash, q, k);
      assert q in cl'.todo;
    }
  }

  /** A write section makes its data the truth. */
  lemma ScatterSettles<K(!new), V(!new)>(hash: K -> nat, ws: seq<World<K, V>>, n: nat, c: nat, st: Step<K, V>, k: K)
    requires n + 1 < |ws| && AllSettled(hash, ws, n) && st.Scatter? && Takes(hash, ws[n], n, c, st, ws[n + 1])
    ensures Settled(hash, ws, n + 1, ws[n + 1].clients[c], k)
  {
    var cl := ws[n].clients[c];
    assert Settled(hash, ws, n, cl, k);
    StaysSettled(hash, ws, n, cl, k);
    StaysPlaced(hash, ws[n], n, c, st, ws[n + 1]);
    TrueNow(hash, ws, cl.since, n + 1, k);
    if k in st.ks {
      assert Lookup(ws[n + 1].shards[st.shard], k) == Some(cl.data[k]);
    }
  }

  lemma StepSettles<K(!new), V(!new)>(hash: K -> nat, ws: seq<World<K, V>>, n: nat, c: nat, st: Step<K, V>)
    requires n + 1 < |ws| && AllSettled(hash, ws, n) && Takes(hash, ws[n], n, c, st, ws[n + 1])
    ensures AllSettled(hash, ws, n + 1)
  {
    StaysPlaced(hash, ws[n], n, c, st, ws[n + 1]);
    var m := n + 1;
    forall d, k | 0 <= d < |ws[m].clients|
      ensures Settled(hash, ws, m, ws[m].clients[d], k)
    {
      assert Settled(hash, ws, n, ws[n].clients[d], k);
      if d != c || st.Other? {
        StaysSettled(hash, ws, n, ws[n].clients[d], k);
      } else if st.Gather? {
        GatherSettles(hash, ws, n, c, st, k);
      } else if st.Scatter? {
        ScatterSettles(hash, ws, n, c, st, k);
      }
    }
  }

  lemma {:induction false} TraceSettles<K(!new), V(!new)>(
    hash: K -> nat, ws: seq<World<K, V>>, who: seq<nat>, steps: seq<Step<K, V>>, n: nat)
    requires Trace(hash, ws, who, steps) && n < |ws|
    ensures AllSettled(hash, ws, n)
  {
    if n > 0 {
      TraceSettles(hash, ws, who, steps, n - 1);
      StepSettles(hash, ws, n - 1, who[n - 1], steps[n - 1]);
    }
  }

  /** When a reading call has finished, its answer for each key it covers was the
      truth at some moment between call and return. */
  lemma GatherAnswers<K(!new), V(!new)>(
    hash: K -> nat, ws: seq<World<K, V>>, who: seq<nat>, steps: seq<Step<K, V>>, n: nat, c: nat, k: K)
    requires Trace(hash, ws, who, steps) && n < |ws| && c < |ws[n].clients|
    requires var cl := ws[n].clients[c]; cl.Gathering? && cl.todo == {} && Pending(hash, cl.asked, k)
    ensures var cl := ws[n].clients[c]; TrueBetween(ws, cl.since, n, k, Lookup(cl.result, k))
  {
    TraceSettles(hash, ws, who, steps, n);
    assert Settled(hash, ws, n, ws[n].clients[c], k);
  }

  /** When a writing call has finished, each of its values was the truth at some
      moment between call and return. */
  lemma ScatterLands<K(!new), V(!new)>(
    hash: K -> nat, ws: seq<World<K, V>>, who: seq<nat>, steps: seq<Step<K, V>>, n: nat, c: nat, k: K)
    requires Trace(hash, ws, who, steps) && n < |ws| && c < |ws[n].clients|
    requires var cl := ws[n].clients[c]; cl.Scattering? && cl.unset == {} && k in cl.data
    ensures var cl := ws[n].clients[c]; TrueBetween(ws, cl.since, n, k, Some(cl.data[k]))
  {
    TraceSettles(hash, ws, who, steps, n);
    assert Settled(hash, ws, n, ws[n].clients[c], k);
  }

  /** A call that is under way began with the call step of its client at `since`. */
  ghost predicate Began<K(!new), V(!new)>(
    who: seq<nat>, steps: seq<Step<K, V>>, n: nat, c: nat, cl: Client<K, V>)
    requires n <= |steps| == |who|
  {
    cl.Idle? || (cl.since < n && who[cl.since] == c
      && steps[cl.since] == if cl.Gathering? then CallGather(cl.asked) else CallScatter(cl.data))
  }

  lemma {:induction false} CallBegan<K(!new), V(!new)>(
    hash: K -> nat, ws: seq<World<K, V>>, who: seq<nat>, steps: seq<Step<K, V>>, n: nat, c: nat)
    requires Trace(hash, ws, who, steps) && n < |ws| && c < |ws[n].clients|
    ensures Began(who, steps, n, c, ws[n].clients[c])
  {
    if n > 0 {
      assert Takes(hash, ws[n - 1], n - 1, who[n - 1], steps[n - 1], ws[n]);
      CallBegan(hash, ws, who, steps, n - 1, c);
    }
  }

  /** A call returns only when it is done: whatever it was asked has been answered truly,
      and whatever it was given has been written. */
  lemma ReturnsDone<K(!new), V(!new)>(
    hash: K -> nat, ws: seq<World<K, V>>, who: seq<nat>, steps: seq<Step<K, V>>, n: nat, k: K)
    requires Trace(hash, ws, who, steps) && n < |steps| && steps[n].Return?
    ensures who[n] < |ws[n].clients| && Began(who, steps, n, who[n], ws[n].clients[who[n]])
    ensures match ws[n].clients[who[n]]
      case Idle => false
      case Gathering(asked, todo, result, since) =>
        Pending(hash, asked, k) ==> TrueBetween(ws, since, n, k, Lookup(result, k))
      case Scattering(data, unset, since) => k in data ==> TrueBetween(ws, since, n, k, Some(data[k]))
  {
    var c := who[n];
    assert Takes(hash, ws[n], n, c, steps[n], ws[n + 1]);
    var cl := ws[n].clients[c];
    CallBegan(hash, ws, who, steps, n, c);
    if cl.Gathering? && Pending(hash, cl.asked, k) {
      GatherAnswers(hash, ws, who, steps, n, c, k);
    } else if cl.Scattering? && k in cl.data {
      ScatterLands(hash, ws, who, steps, n, c, k);
    }
  }

  // ---- the calls of the program ----

  /** MGet of the int64 map: the keys of one shard in one section, if there are any. */
  ghost function GroupedParts<K(!new)>(hash: K -> nat, keys: set<K>): set<Part<K>> {
    set k | k in keys :: GroupedPart(hash, keys, Index(hash, k))
  }

  ghost function GroupedPart<K(!new)>(hash: K -> nat, keys: set<K>, i: nat): Part<K> {
    Part(i, false, set k | k in keys && Index(hash, k) == i)
  }

  /** MGet of the string map: a section for each key. */
  ghost function SingleParts<K(!new)>(hash: K -> nat, keys: set<K>): set<Part<K>> {
    set k | k in keys :: Part(Index(hash, k), false, {k})
  }

  /** Items and the iterators: all of every shard. */
  ghost function WholeParts<K(!new)>(): set<Part<K>> {
    set i | i in Below(SHARD_COUNT) :: Part(i, true, {})
  }

  lemma PartsCover<K(!new)>(hash: K -> nat, keys: set<K>, k: K)
    ensures Pending(hash, GroupedParts(hash, keys), k) <==> k in keys
    ensures Pending(hash, SingleParts(hash, keys), k) <==> k in keys
    ensures Pending(hash, WholeParts(), k)
  {
    var i := Index(hash, k);
    if k in keys {
      var p := GroupedPart(hash, keys, i);
      assert p in GroupedParts(hash, keys) && Covers(hash, p, k);
      assert Part(i, false, {k}) in SingleParts(hash, keys) && Covers(hash, Part(i, false, {k}), k);
    }
    assert Part(i, true, {}) in WholeParts<K>() && Covers(hash, Part(i, true, {}), k);
  }

  /** Every key MGet was given is answered truly: its value if it is in the result,
      its absence if it is not. */
  lemma MGetAnswers<K(!new), V(!new)>(
    hash: K -> nat, ws: seq<World<K, V>>, who: seq<nat>, steps: seq<Step<K, V>>, n: nat, c: nat, keys: set<K>, k: K)
    requires Trace(hash, ws, who, steps) && n < |ws| && c < |ws[n].clients| && k in keys
    requires var cl := ws[n].clients[c];
             && cl.Gathering? && cl.todo == {}
             && (cl.asked == GroupedParts(hash, keys) || cl.asked == SingleParts(hash, keys))
    ensures var cl := ws[n].clients[c]; TrueBetween(ws, cl.since, n, k, Lookup(cl.result, k))
  {
    PartsCover(hash, keys, k);
    GatherAnswers(hash, ws, who, steps, n, c, k);
  }

  /** Items answers every key of all truly, one by one. */
  lemma ItemsAnswers<K(!new), V(!new)>(
    hash: K -> nat, ws: seq<World<K, V>>, who: seq<nat>, steps: seq<Step<K, V>>, n: nat, c: nat, k: K)
    requires Trace(hash, ws, who, steps) && n < |ws| && c < |ws[n].clients|
    requires var cl := ws[n].clients[c]; cl.Gathering? && cl.todo == {} && cl.asked == WholeParts()
    ensures var cl := ws[n].clients[c]; TrueBetween(ws, cl.since, n, k, Lookup(cl.result, k))
  {
    PartsCover(hash, {}, k);
    GatherAnswers(hash, ws, who, steps, n, c, k);
  }
}
