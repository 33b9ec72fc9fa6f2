/** The one-key updates of the maps, in every interleaving: each takes effect on the one
    flat map at its unlock, and answers from what that map held there. */
module KeyOps {
  import opened Wrappers
  import opened ShardSpec
  import opened LockSections

  /** Callbacks are given what the key holds; they do not touch the map. */
  datatype Op<!V> =
    | Set(v: V)
    | Upsert(make: Option<V> -> V)
    | SetIfAbsent(v: V)
    | GetOrSet(v: V)
    | Remove
    | RemoveCb(drop: Option<V> -> bool)
    | Pop

  datatype Answer<V> = Held(was: Option<V>) | Value(v: V) | Said(b: bool) | Nothing

  /** What the key holds afterwards. */
  function Result<V>(op: Op<V>, was: Option<V>): Option<V> {
    match op
    case Set(v) => Some(v)
    case Upsert(make) => Some(make(was))
    case SetIfAbsent(v) => if was == None then Some(v) else was
    case GetOrSet(v) => if was == None then Some(v) else was
    case Remove => None
    case RemoveCb(drop) => if drop(was) then None else was
    case Pop => None
  }

  /** What the caller is told. */
  function Told<V>(op: Op<V>, was: Option<V>): Answer<V> {
    match op
    case Set(_) => Held(was)
    case Upsert(make) => Value(make(was))
    case SetIfAbsent(_) => Said(was == None)
    case GetOrSet(v) => Value(if was == None then v else was.value)
    case Remove => Nothing
    case RemoveCb(drop) => Said(drop(was))
    case Pop => Held(was)
  }

  function Effect<K, V>(k: K, op: Op<V>, m: map<K, V>): map<K, V> {
    match Result(op, Lookup(m, k))
    case Some(v) => m[k := v]
    case None => m - {k}
  }

  /** What the program does inside the lock: one write, or none for a key that it only
      looks at. */
  function BodyOf<K(==), V>(k: K, op: Op<V>): Body<K, V> {
    m =>
      if (op.SetIfAbsent? || op.GetOrSet?) && k in m then []
      else if op.RemoveCb? && !(op.drop(Lookup(m, k)) && k in m) then []
      else match Result(op, Lookup(m, k)) case Some(v) => [Put(k, v)] case None => [Del(k)]
  }

  ghost predicate HasEffect<K(!new), V(!new)>(body: Body<K, V>, k: K, op: Op<V>) {
    forall m :: ApplyAll(body(m), m) == Effect(k, op, m)
  }

  lemma ApplyOne<K, V>(w: Write<K, V>, m: map<K, V>)
    ensures ApplyAll([w], m) == Apply(w, m)
  {
    assert [w][..0] == [];
  }

  lemma BodyHasEffect<K(!new), V(!new)>(k: K, op: Op<V>)
    ensures HasEffect(BodyOf<K, V>(k, op), k, op)
  {
    forall m: map<K, V> ensures ApplyAll(BodyOf<K, V>(k, op)(m), m) == Effect(k, op, m) {
      var ws := BodyOf<K, V>(k, op)(m);
      if ws == [] {
        assert k in m ==> m[k := m[k]] == m;
        assert k !in m ==> m - {k} == m;
      } else {
        ApplyOne(ws[0], m);
      }
    }
  }

  // ---- over whole runs ----

  ghost predicate Performs<K(!new), V(!new)>(hash: K -> nat, e: Event<K, V>, k: K, op: Op<V>) {
    e.WriteDone? && e.shard == Index(hash, k) && HasEffect(e.body, k, op)
  }

  /** A write section stores only keys of its shard. */
  ghost predicate KeepsPlaces<K(!new), V(!new)>(hash: K -> nat, e: Event<K, V>) {
    e.WriteDone? ==> forall m, k :: k in ApplyAll(e.body(m), m) ==> k in m || Index(hash, k) == e.shard
  }

  ghost predicate PlacedRun<K(!new), V(!new)>(
    hash: K -> nat, states: seq<State<K, V>>, sched: seq<(nat, Action<K, V>)>)
  {
    && IsRun(states, sched) && Placed(hash, states[0].committed)
    && forall j :: 0 <= j < |sched| ==> KeepsPlaces(hash, EventAt(states, sched, j))
  }

  ghost predicate SectionAt<K(!new), V(!new)>(states: seq<State<K, V>>, sched: seq<(nat, Action<K, V>)>, j: nat)
    requires IsRun(states, sched) && j < |sched|
  {
    Section(states[j].committed, EventAt(states, sched, j), states[j + 1].committed)
  }

  lemma {:induction false} RunPlaced<K(!new), V(!new)>(
    hash: K -> nat, states: seq<State<K, V>>, sched: seq<(nat, Action<K, V>)>, j: nat)
    requires PlacedRun(hash, states, sched) && j <= |sched|
    ensures Placed(hash, states[j].committed)
  {
    if j > 0 {
      RunPlaced(hash, states, sched, j - 1);
      RunRefines(states, sched);
      assert SectionAt(states, sched, j - 1) && KeepsPlaces(hash, EventAt(states, sched, j - 1));
    }
  }

  /** What the flat map holds for a key at a moment of a run. */
  ghost function HeldAt<K(!new), V(!new)>(states: seq<State<K, V>>, j: nat, k: K): Option<V>
    requires j < |states|
  {
    Lookup(Flat(states[j].committed), k)
  }

  lemma SectionOnKey<K(!new), V(!new)>(hash: K -> nat, a: seq<map<K, V>>, e: Event<K, V>, b: seq<map<K, V>>, k: K)
    requires Placed(hash, a) && Placed(hash, b) && Section(a, e, b)
    ensures Lookup(Flat(a), k) == Lookup(a[Index(hash, k)], k)
    ensures Lookup(Flat(b), k) == Lookup(b[Index(hash, k)], k)
    ensures !(e.WriteDone? && e.shard == Index(hash, k)) ==> Lookup(Flat(b), k) == Lookup(Flat(a), k)
  {
    FlatAt(hash, a);
    FlatAt(hash, b);
  }

  /** An update answers from, and changes, what the flat map holds for its key at its
      unlock, and changes no other key. */
  lemma OneKeyAtUnlock<K(!new), V(!new)>(
    hash: K -> nat, states: seq<State<K, V>>, sched: seq<(nat, Action<K, V>)>, j: nat, k: K, op: Op<V>)
    requires PlacedRun(hash, states, sched) && j < |sched| && Performs(hash, EventAt(states, sched, j), k, op)
    ensures Told(op, Lookup(EventAt(states, sched, j).seen, k)) == Told(op, HeldAt(states, j, k))
    ensures HeldAt(states, j + 1, k) == Result(op, HeldAt(states, j, k))
    ensures forall x :: x != k ==> HeldAt(states, j + 1, x) == HeldAt(states, j, x)
    ensures op.Remove? ==> Told(op, HeldAt(states, j, k)) == Nothing
  {
    var a, e, b := states[j].committed, EventAt(states, sched, j), states[j + 1].committed;
    RunPlaced(hash, states, sched, j);
    RunPlaced(hash, states, sched, j + 1);
    RunRefines(states, sched);
    assert SectionAt(states, sched, j);
    SectionOnKey(hash, a, e, b, k);
    assert b == a[e.shard := Effect(k, op, e.seen)];
    forall x | x != k ensures HeldAt(states, j + 1, x) == HeldAt(states, j, x) {
      SectionOnKey(hash, a, e, b, x);
    }
  }

  // ---- who sets an absent key ----

  ghost predicate Tries<K(!new), V(!new)>(hash: K -> nat, e: Event<K, V>, k: K) {
    exists v :: Performs(hash, e, k, SetIfAbsent(v))
  }

  /** A SetIfAbsent that is told that it set the key. */
  ghost predicate Wins<K(!new), V(!new)>(hash: K -> nat, e: Event<K, V>, k: K) {
    exists v :: Performs(hash, e, k, SetIfAbsent(v)) && Told(SetIfAbsent(v), Lookup(e.seen, k)) == Said(true)
  }

  /** Whatever else leaves the key as it is. */
  ghost predicate Spares<K(!new), V(!new)>(hash: K -> nat, e: Event<K, V>, k: K) {
    e.WriteDone? && e.shard == Index(hash, k) ==> forall m :: Lookup(ApplyAll(e.body(m), m), k) == Lookup(m, k)
  }

  lemma SparedKey<K(!new), V(!new)>(
    hash: K -> nat, states: seq<State<K, V>>, sched: seq<(nat, Action<K, V>)>, j: nat, k: K)
    requires PlacedRun(hash, states, sched) && j < |sched| && Spares(hash, EventAt(states, sched, j), k)
    ensures HeldAt(states, j + 1, k) == HeldAt(states, j, k)
  {
    RunPlaced(hash, states, sched, j);
    RunPlaced(hash, states, sched, j + 1);
    RunRefines(states, sched);
    assert SectionAt(states, sched, j);
    SectionOnKey(hash, states[j].committed, EventAt(states, sched, j), states[j + 1].committed, k);
  }

  lemma TryAt<K(!new), V(!new)>(
    hash: K -> nat, states: seq<State<K, V>>, sched: seq<(nat, Action<K, V>)>, j: nat, k: K)
    requires PlacedRun(hash, states, sched) && j < |sched| && Tries(hash, EventAt(states, sched, j), k)
    ensures Wins(hash, EventAt(states, sched, j), k) <==> HeldAt(states, j, k) == None
    ensures HeldAt(states, j + 1, k).Some?
  {
    var e := EventAt(states, sched, j);
    var v :| Performs(hash, e, k, SetIfAbsent(v));
    OneKeyAtUnlock(hash, states, sched, j, k, SetIfAbsent(v));
    assert Told(SetIfAbsent(v), Lookup(e.seen, k)) == Said(HeldAt(states, j, k) == None);
    if w :| Performs(hash, e, k, SetIfAbsent(w)) && Told(SetIfAbsent(w), Lookup(e.seen, k)) == Said(true) {
      OneKeyAtUnlock(hash, states, sched, j, k, SetIfAbsent(w));
    }
  }

  lemma LastStep<K(!new), V(!new)>(
    hash: K -> nat, states: seq<State<K, V>>, sched: seq<(nat, Action<K, V>)>, j: nat, k: K)
    requires PlacedRun(hash, states, sched) && j < |sched|
    requires var e := EventAt(states, sched, j); Tries(hash, e, k) || Spares(hash, e, k)
    ensures var e := EventAt(states, sched, j); Tries(hash, e, k) ==>
      (Wins(hash, e, k) <==> HeldAt(states, j, k) == None)
    ensures HeldAt(states, j + 1, k).Some? <==>
      HeldAt(states, j, k).Some? || Tries(hash, EventAt(states, sched, j), k)
  {
    if Tries(hash, EventAt(states, sched, j), k) {
      TryAt(hash, states, sched, j, k);
    } else {
      SparedKey(hash, states, sched, j, k);
    }
  }

  /** From `p` to `q` the key is changed by SetIfAbsent calls only. */
  ghost predicate OnlyTries<K(!new), V(!new)>(
    hash: K -> nat, states: seq<State<K, V>>, sched: seq<(nat, Action<K, V>)>, k: K, p: nat, q: nat)
    requires IsRun(states, sched) && p <= q <= |sched|
  {
    forall j :: p <= j < q ==>
      Tries(hash, EventAt(states, sched, j), k) || Spares(hash, EventAt(states, sched, j), k)
  }

  /** Tries, wins and presence, moment by moment. */
  ghost predicate FirstComes(tries: nat -> bool, wins: nat -> bool, held: nat -> bool, j: nat) {
    && (tries(j) ==> (wins(j) <==> !held(j)))
    && (held(j + 1) <==> held(j) || tries(j))
  }

  /** The first of the tries from `p` to `q` wins and no other; or there is none. */
  ghost predicate OnlyWinner(tries: nat -> bool, wins: nat -> bool, p: nat, q: nat, w: nat) {
    && p <= w <= q && (w < q ==> tries(w))
    && forall j :: p <= j < q && tries(j) ==> w <= j && (wins(j) <==> j == w)
  }

  lemma {:induction false} FirstWins(
    tries: nat -> bool, wins: nat -> bool, held: nat -> bool, p: nat, q: nat) returns (w: nat)
    requires p <= q && !held(p) && forall j :: p <= j < q ==> FirstComes(tries, wins, held, j)
    ensures OnlyWinner(tries, wins, p, q, w) && (held(q) <==> w < q)
    decreases q
  {
    if p == q {
      w := q;
    } else {
      var v := FirstWins(tries, wins, held, p, q - 1);
      assert FirstComes(tries, wins, held, q - 1);
      w := if v == q - 1 && !tries(q - 1) then q else v;
    }
  }

  /** Of any number of SetIfAbsent calls on an absent key, with nothing else changing the
      key, exactly the first to unlock is told that it set it. */
  lemma OneSetsIt<K(!new), V(!new)>(
    hash: K -> nat, states: seq<State<K, V>>, sched: seq<(nat, Action<K, V>)>, k: K, p: nat, q: nat)
    returns (w: nat)
    requires PlacedRun(hash, states, sched) && p <= q <= |sched| && HeldAt(states, p, k) == None
    requires OnlyTries(hash, states, sched, k, p, q)
    ensures p <= w <= q && (w < q ==> Tries(hash, EventAt(states, sched, w), k))
    ensures forall j :: p <= j < q && Tries(hash, EventAt(states, sched, j), k) ==>
      w <= j && (Wins(hash, EventAt(states, sched, j), k) <==> j == w)
    ensures HeldAt(states, q, k).Some? <==> w < q
  {
    var tries := (j: nat) => j < |sched| && Tries(hash, EventAt(states, sched, j), k);
    var wins := (j: nat) => j < |sched| && Wins(hash, EventAt(states, sched, j), k);
    var held := (j: nat) => j < |states| && HeldAt(states, j, k).Some?;
    forall j | p <= j < q ensures FirstComes(tries, wins, held, j) {
      LastStep(hash, states, sched, j, k);
    }
    w := FirstWins(tries, wins, held, p, q);
    forall j | p <= j < q && Tries(hash, EventAt(states, sched, j), k)
      ensures w <= j && (Wins(hash, EventAt(states, sched, j), k) <==> j == w)
    {
      assert tries(j);
    }
  }

  // ---- who takes a value away ----

  /** Updates that remove the key and answer whether there was something. */
  ghost predicate Taking<V(!new)>(op: Op<V>) {
    op.Pop? || (op.RemoveCb? && forall was :: op.drop(was) <==> was.Some?)
  }

  predicate Got<V>(answer: Answer<V>) { answer == Said(true) || (answer.Held? && answer.was.Some?) }

  ghost predicate Takes<K(!new), V(!new)>(hash: K -> nat, e: Event<K, V>, k: K) {
    exists op :: Taking(op) && Performs(hash, e, k, op)
  }

  /** A Pop or RemoveCb that is told that it removed something. */
  ghost predicate GetsIt<K(!new), V(!new)>(hash: K -> nat, e: Event<K, V>, k: K) {
    exists op :: Taking(op) && Performs(hash, e, k, op) && Got(Told(op, Lookup(e.seen, k)))
  }

  lemma TakeAt<K(!new), V(!new)>(
    hash: K -> nat, states: seq<State<K, V>>, sched: seq<(nat, Action<K, V>)>, j: nat, k: K)
    requires PlacedRun(hash, states, sched) && j < |sched| && Takes(hash, EventAt(states, sched, j), k)
    ensures GetsIt(hash, EventAt(states, sched, j), k) <==> HeldAt(states, j, k).Some?
    ensures HeldAt(states, j + 1, k) == None
  {
    var e := EventAt(states, sched, j);
    var op :| Taking(op) && Performs(hash, e, k, op);
    OneKeyAtUnlock(hash, states, sched, j, k, op);
    assert Got(Told(op, HeldAt(states, j, k))) <==> HeldAt(states, j, k).Some?;
    if other :| Taking(other) && Performs(hash, e, k, other) && Got(Told(other, Lookup(e.seen, k))) {
      OneKeyAtUnlock(hash, states, sched, j, k, other);
    }
  }

  ghost predicate OnlyTakes<K(!new), V(!new)>(
    hash: K -> nat, states: seq<State<K, V>>, sched: seq<(nat, Action<K, V>)>, k: K, p: nat, q: nat)
    requires IsRun(states, sched) && p <= q <= |sched|
  {
    forall j :: p <= j < q ==>
      Takes(hash, EventAt(states, sched, j), k) || Spares(hash, EventAt(states, sched, j), k)
  }

  lemma LastTake<K(!new), V(!new)>(
    hash: K -> nat, states: seq<State<K, V>>, sched: seq<(nat, Action<K, V>)>, j: nat, k: K)
    requires PlacedRun(hash, states, sched) && j < |sched|
    requires var e := EventAt(states, sched, j); Takes(hash, e, k) || Spares(hash, e, k)
    ensures var e := EventAt(states, sched, j); Takes(hash, e, k) ==>
      (GetsIt(hash, e, k) <==> HeldAt(states, j, k).Some?)
    ensures HeldAt(states, j + 1, k) == None <==>
      HeldAt(states, j, k) == None || Takes(hash, EventAt(states, sched, j), k)
  {
    if Takes(hash, EventAt(states, sched, j), k) {
      TakeAt(hash, states, sched, j, k);
    } else {
      SparedKey(hash, states, sched, j, k);
    }
  }

  /** Of any number of Pops and agreeing RemoveCbs on a key that holds a value, with nothing
      else changing the key, exactly the first to unlock is told that it got it. */
  lemma OneTakesIt<K(!new), V(!new)>(
    hash: K -> nat, states: seq<State<K, V>>, sched: seq<(nat, Action<K, V>)>, k: K, p: nat, q: nat)
    returns (w: nat)
    requires PlacedRun(hash, states, sched) && p <= q <= |sched| && HeldAt(states, p, k).Some?
    requires OnlyTakes(hash, states, sched, k, p, q)
    ensures p <= w <= q && (w < q ==> Takes(hash, EventAt(states, sched, w), k))
    ensures forall j :: p <= j < q && Takes(hash, EventAt(states, sched, j), k) ==>
      w <= j && (GetsIt(hash, EventAt(states, sched, j), k) <==> j == w)
    ensures HeldAt(states, q, k) == None <==> w < q
  {
    var takes := (j: nat) => j < |sched| && Takes(hash, EventAt(states, sched, j), k);
    var gets := (j: nat) => j < |sched| && GetsIt(hash, EventAt(states, sched, j), k);
    var gone := (j: nat) => j < |states| && HeldAt(states, j, k) == None;
    forall j | p <= j < q ensures FirstComes(takes, gets, gone, j) {
      LastTake(hash, states, sched, j, k);
    }
    w := FirstWins(takes, gets, gone, p, q);
    forall j | p <= j < q && Takes(hash, EventAt(states, sched, j), k)
      ensures w <= j && (GetsIt(hash, EventAt(states, sched, j), k) <==> j == w)
    {
      assert takes(j);
    }
  }

  // ---- what the next one is told ----

  ghost predicate OnlySpares<K(!new), V(!new)>(
    hash: K -> nat, states: seq<State<K, V>>, sched: seq<(nat, Action<K, V>)>, k: K, p: nat, q: nat)
    requires IsRun(states, sched) && p <= q <= |sched|
  {
    forall j :: p <= j < q ==> Spares(hash, EventAt(states, sched, j), k)
  }

  lemma {:induction false} StaysHeld<K(!new), V(!new)>(
    hash: K -> nat, states: seq<State<K, V>>, sched: seq<(nat, Action<K, V>)>, k: K, p: nat, q: nat)
    requires PlacedRun(hash, states, sched) && p <= q <= |sched| && OnlySpares(hash, states, sched, k, p, q)
    ensures HeldAt(states, q, k) == HeldAt(states, p, k)
    decreases q
  {
    if p < q {
      StaysHeld(hash, states, sched, k, p, q - 1);
      SparedKey(hash, states, sched, q - 1, k);
    }
  }

  /** What a Set or a Pop is told that comes next after another update of its key, when that
      one found `before`. */
  lemma NextIsTold<K(!new), V(!new)>(
    hash: K -> nat, states: seq<State<K, V>>, sched: seq<(nat, Action<K, V>)>, k: K,
    i: nat, first: Op<V>, j: nat, next: Op<V>)
    requires PlacedRun(hash, states, sched) && i < j < |sched| && OnlySpares(hash, states, sched, k, i + 1, j)
    requires Performs(hash, EventAt(states, sched, i), k, first)
    requires Performs(hash, EventAt(states, sched, j), k, next) && (next.Set? || next.Pop?)
    ensures var told, before := Told(next, Lookup(EventAt(states, sched, j).seen, k)), HeldAt(states, i, k);
      match first
      case Set(v) => told == Held(Some(v))
      case Upsert(make) => told == Held(Some(make(before)))
      case SetIfAbsent(v) => told == Held(if before.None? then Some(v) else before)
      case GetOrSet(v) => told == Held(if before.None? then Some(v) else before)
      case Remove => told == Held(None)
      case RemoveCb(drop) => told == Held(if drop(before) then None else before)
      case Pop => told == Held(None)
  {
    OneKeyAtUnlock(hash, states, sched, i, k, first);
    StaysHeld(hash, states, sched, k, i + 1, j);
    OneKeyAtUnlock(hash, states, sched, j, k, next);
  }

  // ---- one value for all ----

  ghost predicate Asks<K(!new), V(!new)>(hash: K -> nat, e: Event<K, V>, k: K) {
    exists v :: Performs(hash, e, k, GetOrSet(v))
  }

  ghost predicate OnlyAsks<K(!new), V(!new)>(
    hash: K -> nat, states: seq<State<K, V>>, sched: seq<(nat, Action<K, V>)>, k: K, p: nat, q: nat)
    requires IsRun(states, sched) && p <= q <= |sched|
  {
    forall j :: p <= j < q ==>
      Asks(hash, EventAt(states, sched, j), k) || Spares(hash, EventAt(states, sched, j), k)
  }

  lemma AskKeeps<K(!new), V(!new)>(
    hash: K -> nat, states: seq<State<K, V>>, sched: seq<(nat, Action<K, V>)>, j: nat, k: K)
    requires PlacedRun(hash, states, sched) && j < |sched| && HeldAt(states, j, k).Some?
    requires var e := EventAt(states, sched, j); Asks(hash, e, k) || Spares(hash, e, k)
    ensures HeldAt(states, j + 1, k) == HeldAt(states, j, k)
  {
    if Asks(hash, EventAt(states, sched, j), k) {
      var v :| Performs(hash, EventAt(states, sched, j), k, GetOrSet(v));
      OneKeyAtUnlock(hash, states, sched, j, k, GetOrSet(v));
    } else {
      SparedKey(hash, states, sched, j, k);
    }
  }

  lemma {:induction false} StaysAsked<K(!new), V(!new)>(
    hash: K -> nat, states: seq<State<K, V>>, sched: seq<(nat, Action<K, V>)>, k: K, p: nat, q: nat)
    requires PlacedRun(hash, states, sched) && p <= q <= |sched| && OnlyAsks(hash, states, sched, k, p, q)
    requires HeldAt(states, p, k).Some?
    ensures HeldAt(states, q, k) == HeldAt(states, p, k)
    decreases q
  {
    if p < q {
      StaysAsked(hash, states, sched, k, p, q - 1);
      AskKeeps(hash, states, sched, q - 1, k);
    }
  }

  /** While nothing but GetOrSet calls change a key, all of them are told one value: what
      the key held, or what the first of them brought. */
  lemma OneValueForAll<K(!new), V(!new)>(
    hash: K -> nat, states: seq<State<K, V>>, sched: seq<(nat, Action<K, V>)>, k: K, i: nat, v: V, j: nat, w: V)
    requires PlacedRun(hash, states, sched) && i < j < |sched| && OnlyAsks(hash, states, sched, k, i, j)
    requires Performs(hash, EventAt(states, sched, i), k, GetOrSet(v))
    requires Performs(hash, EventAt(states, sched, j), k, GetOrSet(w))
    ensures var told := Told(GetOrSet(v), Lookup(EventAt(states, sched, i).seen, k));
      && told == Value(if HeldAt(states, i, k).Some? then HeldAt(states, i, k).value else v)
      && Told(GetOrSet(w), Lookup(EventAt(states, sched, j).seen, k)) == told
  {
    OneKeyAtUnlock(hash, states, sched, i, k, GetOrSet(v));
    StaysAsked(hash, states, sched, k, i + 1, j);
    OneKeyAtUnlock(hash, states, sched, j, k, GetOrSet(w));
  }

  // ---- no update is lost ----

  /** The callbacks of the updates from `p` to `n`, one after the other. */
  ghost function Folded<V(!new)>(
    ups: nat -> bool, makes: nat -> Option<V> -> V, was: Option<V>, p: nat, n: nat): Option<V>
    requires p <= n
    decreases n
  {
    if n == p then was else Updated(ups(n - 1), makes(n - 1), Folded(ups, makes, was, p, n - 1))
  }

  function Updated<V>(up: bool, make: Option<V> -> V, was: Option<V>): Option<V> {
    if up then Some(make(was)) else was
  }

  ghost predicate UpsertAt<K(!new), V(!new)>(
    hash: K -> nat, e: Event<K, V>, k: K, up: bool, make: Option<V> -> V)
  {
    if up then Performs(hash, e, k, Upsert(make)) else Spares(hash, e, k)
  }

  ghost predicate IsTold<K(!new), V(!new)>(e: Event<K, V>, k: K, op: Op<V>, answer: Answer<V>) {
    e.WriteDone? && Told(op, Lookup(e.seen, k)) == answer
  }

  lemma UpsertStep<K(!new), V(!new)>(
    hash: K -> nat, states: seq<State<K, V>>, sched: seq<(nat, Action<K, V>)>, j: nat, k: K,
    up: bool, make: Option<V> -> V)
    requires PlacedRun(hash, states, sched) && j < |sched| && UpsertAt(hash, EventAt(states, sched, j), k, up, make)
    ensures HeldAt(states, j + 1, k) == Updated(up, make, HeldAt(states, j, k))
    ensures up ==> IsTold(EventAt(states, sched, j), k, Upsert(make), Value(make(HeldAt(states, j, k))))
  {
    if up {
      OneKeyAtUnlock(hash, states, sched, j, k, Upsert(make));
    } else {
      SparedKey(hash, states, sched, j, k);
    }
  }

  ghost predicate Follows<V(!new)>(held: nat -> Option<V>, ups: nat -> bool, makes: nat -> Option<V> -> V, j: nat) {
    held(j + 1) == Updated(ups(j), makes(j), held(j))
  }

  lemma {:induction false} FoldsTo<V(!new)>(
    held: nat -> Option<V>, ups: nat -> bool, makes: nat -> Option<V> -> V, p: nat, n: nat)
    requires p <= n && forall j :: p <= j < n ==> Follows(held, ups, makes, j)
    ensures held(n) == Folded(ups, makes, held(p), p, n)
    decreases n
  {
    if p < n {
      FoldsTo(held, ups, makes, p, n - 1);
      assert Follows(held, ups, makes, n - 1);
    }
  }

  ghost predicate OnlyUpserts<K(!new), V(!new)>(
    hash: K -> nat, states: seq<State<K, V>>, sched: seq<(nat, Action<K, V>)>, k: K, p: nat, q: nat,
    ups: nat -> bool, makes: nat -> Option<V> -> V)
    requires IsRun(states, sched) && p <= q <= |sched|
  {
    forall j :: p <= j < q ==> UpsertAt(hash, EventAt(states, sched, j), k, ups(j), makes(j))
  }

  /** However many clients call Upsert on one key, the key ends up with all of them done. */
  lemma NoUpdateLost<K(!new), V(!new)>(
    hash: K -> nat, states: seq<State<K, V>>, sched: seq<(nat, Action<K, V>)>, k: K, p: nat, q: nat,
    ups: nat -> bool, makes: nat -> Option<V> -> V)
    requires PlacedRun(hash, states, sched) && p <= q <= |sched|
    requires OnlyUpserts(hash, states, sched, k, p, q, ups, makes)
    ensures HeldAt(states, q, k) == Folded(ups, makes, HeldAt(states, p, k), p, q)
  {
    var held := (j: nat) => if j < |states| then HeldAt(states, j, k) else None;
    forall j | p <= j < q ensures Follows(held, ups, makes, j) {
      UpsertStep(hash, states, sched, j, k, ups(j), makes(j));
    }
    FoldsTo(held, ups, makes, p, q);
  }

  /** Each callback is given what the one before it made, and its result is what its caller
      is told. */
  lemma UpsertIsTold<K(!new), V(!new)>(
    hash: K -> nat, states: seq<State<K, V>>, sched: seq<(nat, Action<K, V>)>, k: K, p: nat, q: nat,
    ups: nat -> bool, makes: nat -> Option<V> -> V)
    requires PlacedRun(hash, states, sched) && p <= q < |sched|
    requires OnlyUpserts(hash, states, sched, k, p, q, ups, makes)
    requires UpsertAt(hash, EventAt(states, sched, q), k, true, makes(q))
    ensures var before := Folded(ups, makes, HeldAt(states, p, k), p, q);
            IsTold(EventAt(states, sched, q), k, Upsert(makes(q)), Value(makes(q)(before)))
  {
    NoUpdateLost(hash, states, sched, k, p, q, ups, makes);
    UpsertStep(hash, states, sched, q, k, true, makes(q));
  }
}
