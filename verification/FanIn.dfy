/** The iterator: each shard is read under its lock into a buffered channel, and
    forwarders move the channels into one buffered output, in every schedule and
    while other clients change the map. The int64 map fills the channels one after
    another before it returns, the string map fills them in goroutines. */
module FanIn {
  import opened Wrappers
  import opened ShardSpec
  import opened RwLocks
  import opened Schedules

  /** A goroutine that reads one shard; it holds the shard's lock while Filling. */
  datatype Producer<K(==), V> = Waiting | Queued | Filling(todo: map<K, V>) | Unlocked | Closed

  datatype Forwarder<K, V> = NotStarted | Ready | Holding(t: (K, V)) | Done

  /** One shard's channel with its two goroutines. `taken` is the shard as it was when
      the lock was taken, `passed` what has gone to the output; both are auxiliary. */
  datatype Lane<K(==), V(==)> = Lane(
    prod: Producer<K, V>, cap: nat, buf: seq<(K, V)>, fwd: Forwarder<K, V>,
    taken: map<K, V>, passed: multiset<(K, V)>)

  datatype State<K(==), V(==)> = State(
    gates: seq<Gate<map<K, V>>>, lanes: seq<Lane<K, V>>,
    made: bool, outCap: nat, out: seq<(K, V)>, outClosed: bool, consumed: seq<(K, V)>)

  /** What the goroutines of one shard do. */
  datatype Move<K> =
    | Ask        // for the shard's lock: it is taken and the channel made, or one queues
    | Send(k: K) // into the shard's channel
    | Unlock
    | Close
    | Receive
    | Forward    // into the output
    | Finish

  datatype Action<K(==), V> =
    | On(i: nat, move: Move<K>)
    | MakeOut                      // size the output and start the forwarders
    | CloseOut
    | Consume                      // the caller reads the output, if it does
    | Client(i: nat, visit: Visit<map<K, V>>)
    | Elsewhere

  ghost predicate Sized<K, V>(s: State<K, V>) { |s.gates| == |s.lanes| }

  ghost predicate CanMove<K, V>(l: Lane<K, V>, g: Gate<map<K, V>>, m: Move<K>) {
    match m
    case Ask => l.prod.Waiting?
    case Send(k) => l.prod.Filling? && k in l.prod.todo && k in g.items && |l.buf| < l.cap
    case Unlock => l.prod.Filling? && l.prod.todo == map[]
    case Close => l.prod.Unlocked?
    case Receive => l.fwd.Ready? && l.buf != []
    case Forward => l.fwd.Holding?
    case Finish => l.fwd.Ready? && l.buf == [] && l.prod.Closed?
  }

  /** The producer holds the lock and has made its channel. */
  ghost function LetIn<K, V>(l: Lane<K, V>, live: map<K, V>): Lane<K, V> {
    l.(prod := Filling(live), cap := |live|, taken := live)
  }

  ghost function Moved<K, V>(l: Lane<K, V>, g: Gate<map<K, V>>, m: Move<K>): Lane<K, V>
    requires CanMove(l, g, m)
  {
    match m
    case Ask => if Open(g) then LetIn(l, g.items) else l.(prod := Queued)
    case Send(k) => l.(prod := Filling(l.prod.todo - {k}), buf := l.buf + [(k, g.items[k])])
    case Unlock => l.(prod := Unlocked)
    case Close => l.(prod := Closed)
    case Receive => l.(buf := l.buf[1..], fwd := Holding(l.buf[0]))
    case Forward => l.(fwd := Ready, passed := l.passed + multiset{l.fwd.t})
    case Finish => l.(fwd := Done)
  }

  /** The capacity of a channel is known: the string map asks for no more. */
  predicate CanSize<K, V>(inTurn: bool, p: Producer<K, V>) {
    if inTurn then p.Closed? else !p.Waiting? && !p.Queued?
  }

  /** `inTurn`: the caller itself fills the channels in order, as the int64 map does. */
  ghost predicate Enabled<K, V>(inTurn: bool, s: State<K, V>, a: Action<K, V>)
    requires Sized(s)
  {
    match a
    case On(i, m) =>
      && i < |s.lanes| && CanMove(s.lanes[i], s.gates[i], m)
      && (m.Ask? && inTurn ==> forall j :: 0 <= j < i ==> s.lanes[j].prod.Closed?)
      && (m.Forward? ==> |s.out| < s.outCap)
    case MakeOut => !s.made && forall j :: 0 <= j < |s.lanes| ==> CanSize(inTurn, s.lanes[j].prod)
    case CloseOut => s.made && !s.outClosed && forall j :: 0 <= j < |s.lanes| ==> s.lanes[j].fwd.Done?
    case Consume => s.out != []
    case Client(i, v) => i < |s.lanes| && CanVisit(s.gates[i], s.lanes[i].prod.Filling?, v)
    case Elsewhere => true
  }

  function Caps<K, V>(lanes: seq<Lane<K, V>>): nat {
    if lanes == [] then 0 else Caps(lanes[..|lanes| - 1]) + lanes[|lanes| - 1].cap
  }

  function Started<K, V>(lanes: seq<Lane<K, V>>): (r: seq<Lane<K, V>>)
    ensures |r| == |lanes| && forall i :: 0 <= i < |lanes| ==> r[i] == lanes[i].(fwd := Ready)
  {
    if lanes == [] then [] else Started(lanes[..|lanes| - 1]) + [lanes[|lanes| - 1].(fwd := Ready)]
  }

  ghost function After<K, V>(inTurn: bool, s: State<K, V>, a: Action<K, V>): State<K, V>
    requires Sized(s) && Enabled(inTurn, s, a)
  {
    match a
    case On(i, m) =>
      s.(lanes := s.lanes[i := Moved(s.lanes[i], s.gates[i], m)],
         out := if m.Forward? then s.out + [s.lanes[i].fwd.t] else s.out)
    case MakeOut => s.(made := true, outCap := Caps(s.lanes), lanes := Started(s.lanes))
    case CloseOut => s.(outClosed := true)
    case Consume => s.(out := s.out[1..], consumed := s.consumed + [s.out[0]])
    case Client(i, v) => AfterVisit(s, i, v)
    case Elsewhere => s
  }

  /** A client that leaves lets a queued producer in. */
  ghost function AfterVisit<K, V>(s: State<K, V>, i: nat, v: Visit<map<K, V>>): State<K, V>
    requires Sized(s) && i < |s.lanes|
  {
    var r := s.(gates := s.gates[i := Visited(s.gates[i], v)]);
    if v.Leave? && s.lanes[i].prod.Queued? then r.(lanes := s.lanes[i := LetIn(s.lanes[i], v.items)]) else r
  }

  ghost predicate Init<K, V>(s: State<K, V>) {
    && Sized(s) && !s.made && s.out == [] && !s.outClosed && s.consumed == []
    && (forall i :: 0 <= i < |s.lanes| ==> s.lanes[i] == Lane(Waiting, 0, [], NotStarted, map[], multiset{}))
    && forall i :: 0 <= i < |s.gates| ==> GateOk(s.gates[i], false)
  }

  // ---- conservation ----

  /** The pairs still to be sent by the producer. */
  ghost function Unsent<K, V>(l: Lane<K, V>): multiset<(K, V)> {
    if l.prod.Filling? then multiset(l.prod.todo.Items) else multiset{}
  }

  ghost function InHand<K, V>(l: Lane<K, V>): multiset<(K, V)> {
    if l.fwd.Holding? then multiset{l.fwd.t} else multiset{}
  }

  /** Nothing of what was taken under the lock is lost or doubled on its way. */
  ghost predicate Conserved<K, V>(l: Lane<K, V>) {
    Unsent(l) + multiset(l.buf) + InHand(l) + l.passed == multiset(l.taken.Items)
  }

  ghost predicate LaneOk<K, V>(l: Lane<K, V>, g: Gate<map<K, V>>, made: bool) {
    && Conserved(l)
    && GateOk(g, l.prod.Filling?)
    && (l.prod.Queued? ==> !Open(g))
    && l.cap == |l.taken|
    && (l.prod.Waiting? || l.prod.Queued? ==>
      l.taken == map[] && l.buf == [] && l.fwd.NotStarted? && l.passed == multiset{})
    && (l.prod.Filling? ==>
          g.items == l.taken && forall k :: k in l.prod.todo ==> k in g.items && g.items[k] == l.prod.todo[k])
    && (made <==> !l.fwd.NotStarted?)
    && (l.fwd.Done? ==> l.prod.Closed? && l.buf == [])
  }

  function Passed<K(==), V(==)>(lanes: seq<Lane<K, V>>): multiset<(K, V)> {
    if lanes == [] then multiset{} else Passed(lanes[..|lanes| - 1]) + lanes[|lanes| - 1].passed
  }

  function Taken<K(==), V(==)>(lanes: seq<Lane<K, V>>): multiset<(K, V)> {
    if lanes == [] then multiset{} else Taken(lanes[..|lanes| - 1]) + multiset(lanes[|lanes| - 1].taken.Items)
  }

  ghost predicate LanesOk<K, V>(s: State<K, V>)
    requires Sized(s)
  {
    forall i :: 0 <= i < |s.lanes| ==> LaneOk(s.lanes[i], s.gates[i], s.made)
  }

  ghost predicate SumsOk<K, V>(s: State<K, V>) {
    && multiset(s.consumed) + multiset(s.out) == Passed(s.lanes)
    && (s.made ==> s.outCap == Caps(s.lanes))
  }

  ghost predicate FlagsOk<K, V>(s: State<K, V>) {
    && (!s.made ==> s.out == [] && s.consumed == [])
    && (s.outClosed ==> s.made && forall j :: 0 <= j < |s.lanes| ==> s.lanes[j].fwd.Done?)
  }

  ghost predicate Inv<K, V>(s: State<K, V>) { Sized(s) && LanesOk(s) && SumsOk(s) && FlagsOk(s) }

  lemma {:induction false} ChangePassed<K, V>(lanes: seq<Lane<K, V>>, i: nat, l: Lane<K, V>, more: multiset<(K, V)>)
    requires i < |lanes| && l.passed == lanes[i].passed + more
    ensures Passed(lanes[i := l]) == Passed(lanes) + more
  {
    var n := |lanes| - 1;
    if i == n {
      assert lanes[i := l][..n] == lanes[..n];
    } else {
      assert lanes[i := l][..n] == lanes[..n][i := l];
      ChangePassed(lanes[..n], i, l, more);
    }
  }

  lemma {:induction false} ChangeCaps<K, V>(lanes: seq<Lane<K, V>>, i: nat, l: Lane<K, V>)
    requires i < |lanes| && l.cap == lanes[i].cap
    ensures Caps(lanes[i := l]) == Caps(lanes)
  {
    var n := |lanes| - 1;
    if i == n {
      assert lanes[i := l][..n] == lanes[..n];
    } else {
      assert lanes[i := l][..n] == lanes[..n][i := l];
      ChangeCaps(lanes[..n], i, l);
    }
  }

  lemma {:induction false} StartedSame<K, V>(lanes: seq<Lane<K, V>>)
    ensures Passed(Started(lanes)) == Passed(lanes) && Caps(Started(lanes)) == Caps(lanes)
  {
    if lanes != [] {
      var n := |lanes| - 1;
      assert Started(lanes)[..n] == Started(lanes[..n]);
      StartedSame(lanes[..n]);
    }
  }

  lemma ItemsWithout<K, V>(m: map<K, V>, k: K)
    requires k in m
    ensures multiset((m - {k}).Items) + multiset{(k, m[k])} == multiset(m.Items)
  {
    var a, b, t := (m - {k}).Items, m.Items, (k, m[k]);
    assert t in b;
    forall u ensures u in b <==> u in a || u == t {
      assert u in b <==> u.0 in m && m[u.0] == u.1;
      assert u in a <==> u.0 in m - {k} && (m - {k})[u.0] == u.1;
    }
    assert t !in a;
    assert b == a + {t};
    SetPlusOne(a, t);
  }

  lemma SetPlusOne<T>(a: set<T>, t: T)
    requires t !in a
    ensures multiset(a + {t}) == multiset(a) + multiset{t}
  {}

  lemma Shift<T>(
    a: multiset<T>, b: multiset<T>, c: multiset<T>, d: multiset<T>, a': multiset<T>, b': multiset<T>, x: multiset<T>)
    requires a == a' + x && b' == b + x
    ensures a + b + c + d == a' + b' + c + d && d + a + b + c == d + a' + b' + c && c + d + a + b == c + d + a' + b'
  {}

  lemma SendConserves<K, V>(l: Lane<K, V>, g: Gate<map<K, V>>, k: K)
    requires Conserved(l) && CanMove(l, g, Send(k)) && g.items[k] == l.prod.todo[k]
    ensures Conserved(Moved(l, g, Send(k)))
  {
    var r, x := Moved(l, g, Send(k)), multiset{(k, g.items[k])};
    ItemsWithout(l.prod.todo, k);
    assert multiset(r.buf) == multiset(l.buf) + x;
    Shift(Unsent(l), multiset(l.buf), InHand(l), l.passed, Unsent(r), multiset(r.buf), x);
  }

  lemma ReceiveConserves<K, V>(l: Lane<K, V>, g: Gate<map<K, V>>)
    requires Conserved(l) && CanMove(l, g, Receive)
    ensures Conserved(Moved(l, g, Receive))
  {
    var r, x := Moved(l, g, Receive), multiset{l.buf[0]};
    assert l.buf == [l.buf[0]] + l.buf[1..];
    assert multiset(l.buf) == multiset(r.buf) + x;
    Shift(multiset(l.buf), InHand(l), l.passed, Unsent(l), multiset(r.buf), InHand(r), x);
  }

  lemma ForwardConserves<K, V>(l: Lane<K, V>, g: Gate<map<K, V>>)
    requires Conserved(l) && CanMove(l, g, Forward)
    ensures Conserved(Moved(l, g, Forward))
  {
    var r, x := Moved(l, g, Forward), multiset{l.fwd.t};
    Shift(InHand(l), l.passed, Unsent(l), multiset(l.buf), InHand(r), r.passed, x);
  }

  lemma LetInKept<K, V>(l: Lane<K, V>, live: map<K, V>, g: Gate<map<K, V>>, made: bool)
    requires Conserved(l) && l.taken == map[] && l.buf == [] && l.fwd.NotStarted? && l.passed == multiset{} && !made
    requires !g.writing && g.items == live
    ensures LaneOk(LetIn(l, live), g, made)
  {
    assert multiset(l.buf) == multiset{};
  }

  lemma AskKept<K, V>(l: Lane<K, V>, g: Gate<map<K, V>>, made: bool)
    requires LaneOk(l, g, made) && CanMove(l, g, Ask)
    ensures LaneOk(Moved(l, g, Ask), g, made)
  {
    if Open(g) {
      LetInKept(l, g.items, g, made);
    }
  }

  lemma SendKept<K, V>(l: Lane<K, V>, g: Gate<map<K, V>>, made: bool, k: K)
    requires LaneOk(l, g, made) && CanMove(l, g, Send(k))
    ensures LaneOk(Moved(l, g, Send(k)), g, made)
  {
    SendConserves(l, g, k);
  }

  lemma ForwarderKept<K, V>(l: Lane<K, V>, g: Gate<map<K, V>>, made: bool, m: Move<K>)
    requires LaneOk(l, g, made) && CanMove(l, g, m) && made && (m.Receive? || m.Forward? || m.Finish?)
    ensures LaneOk(Moved(l, g, m), g, made)
  {
    if m.Receive? {
      ReceiveConserves(l, g);
    } else if m.Forward? {
      ForwardConserves(l, g);
    }
  }

  lemma LaneKept<K, V>(l: Lane<K, V>, g: Gate<map<K, V>>, made: bool, m: Move<K>)
    requires LaneOk(l, g, made) && CanMove(l, g, m) && (m.Receive? || m.Forward? || m.Finish? ==> made)
    ensures LaneOk(Moved(l, g, m), g, made)
  {
    match m {
      case Ask => AskKept(l, g, made);
      case Send(k) => SendKept(l, g, made, k);
      case Unlock =>
      case Close =>
      case _ => ForwarderKept(l, g, made, m);
    }
  }

  /** What a move adds to the output. */
  ghost function Gain<K, V>(l: Lane<K, V>, m: Move<K>): multiset<(K, V)>
    requires m.Forward? ==> l.fwd.Holding?
  {
    if m.Forward? then multiset{l.fwd.t} else multiset{}
  }

  lemma LaneReplaced<K, V>(s: State<K, V>, i: nat, r: State<K, V>)
    requires Sized(s) && LanesOk(s) && i < |s.lanes| == |r.lanes| && r.lanes == s.lanes[i := r.lanes[i]]
    requires r.gates == s.gates && r.made == s.made && LaneOk(r.lanes[i], s.gates[i], s.made)
    ensures LanesOk(r)
  {
    forall j | 0 <= j < |r.lanes| ensures LaneOk(r.lanes[j], r.gates[j], r.made) {
      assert LaneOk(s.lanes[j], s.gates[j], s.made);
    }
  }

  lemma MoveKeepsLanes<K, V>(inTurn: bool, s: State<K, V>, i: nat, m: Move<K>)
    requires Sized(s) && LanesOk(s) && Enabled(inTurn, s, On(i, m))
    ensures LanesOk(After(inTurn, s, On(i, m)))
  {
    assert LaneOk(s.lanes[i], s.gates[i], s.made);
    LaneKept(s.lanes[i], s.gates[i], s.made, m);
    LaneReplaced(s, i, After(inTurn, s, On(i, m)));
  }

  lemma SumsReplaced<K, V>(s: State<K, V>, i: nat, r: State<K, V>, more: multiset<(K, V)>)
    requires SumsOk(s) && i < |s.lanes| == |r.lanes| && r.lanes == s.lanes[i := r.lanes[i]]
    requires r.lanes[i].passed == s.lanes[i].passed + more && (s.made ==> r.lanes[i].cap == s.lanes[i].cap)
    requires r.consumed == s.consumed && multiset(r.out) == multiset(s.out) + more
    requires r.made == s.made && r.outCap == s.outCap
    ensures SumsOk(r)
  {
    ChangePassed(s.lanes, i, r.lanes[i], more);
    if s.made {
      ChangeCaps(s.lanes, i, r.lanes[i]);
    }
  }

  lemma MoveKeepsSums<K, V>(inTurn: bool, s: State<K, V>, i: nat, m: Move<K>)
    requires Sized(s) && LanesOk(s) && SumsOk(s) && Enabled(inTurn, s, On(i, m))
    ensures SumsOk(After(inTurn, s, On(i, m)))
  {
    assert LaneOk(s.lanes[i], s.gates[i], s.made);
    SumsReplaced(s, i, After(inTurn, s, On(i, m)), Gain(s.lanes[i], m));
  }

  lemma DoneMovesNoMore<K, V>(l: Lane<K, V>, g: Gate<map<K, V>>, made: bool, m: Move<K>)
    requires LaneOk(l, g, made) && CanMove(l, g, m)
    ensures !l.fwd.Done?
  {}

  lemma MoveKeepsFlags<K, V>(inTurn: bool, s: State<K, V>, i: nat, m: Move<K>)
    requires Sized(s) && LanesOk(s) && FlagsOk(s) && Enabled(inTurn, s, On(i, m))
    ensures FlagsOk(After(inTurn, s, On(i, m)))
  {
    assert LaneOk(s.lanes[i], s.gates[i], s.made);
    DoneMovesNoMore(s.lanes[i], s.gates[i], s.made, m);
    if m.Forward? {
      assert s.made;
    }
  }

  lemma MoveKeeps<K, V>(inTurn: bool, s: State<K, V>, i: nat, m: Move<K>)
    requires Inv(s) && Enabled(inTurn, s, On(i, m))
    ensures Inv(After(inTurn, s, On(i, m)))
  {
    MoveKeepsLanes(inTurn, s, i, m);
    MoveKeepsSums(inTurn, s, i, m);
    MoveKeepsFlags(inTurn, s, i, m);
  }

  lemma MakeOutKeeps<K, V>(inTurn: bool, s: State<K, V>)
    requires Inv(s) && Enabled(inTurn, s, MakeOut)
    ensures Inv(After(inTurn, s, MakeOut))
  {
    StartedSame(s.lanes);
    forall j | 0 <= j < |s.lanes| ensures LaneOk(Started(s.lanes)[j], s.gates[j], true) {
      assert LaneOk(s.lanes[j], s.gates[j], s.made);
    }
  }

  lemma ConsumeKeeps<K, V>(inTurn: bool, s: State<K, V>)
    requires Inv(s) && Enabled(inTurn, s, Consume)
    ensures Inv(After(inTurn, s, Consume))
  {
    assert s.out == [s.out[0]] + s.out[1..];
    Shift(multiset(s.out), multiset(s.consumed), multiset{}, multiset{},
          multiset(s.out[1..]), multiset(s.consumed + [s.out[0]]), multiset{s.out[0]});
  }

  lemma GateReplaced<K, V>(s: State<K, V>, i: nat, r: State<K, V>)
    requires Sized(s) && LanesOk(s) && i < |s.lanes| == |r.lanes| == |r.gates|
    requires r.lanes == s.lanes[i := r.lanes[i]] && r.gates == s.gates[i := r.gates[i]] && r.made == s.made
    requires LaneOk(r.lanes[i], r.gates[i], s.made)
    ensures LanesOk(r)
  {
    forall j | 0 <= j < |r.lanes| ensures LaneOk(r.lanes[j], r.gates[j], r.made) {
      assert LaneOk(s.lanes[j], s.gates[j], s.made);
    }
  }

  lemma ClientKeepsLane<K, V>(l: Lane<K, V>, g: Gate<map<K, V>>, made: bool, v: Visit<map<K, V>>)
    requires LaneOk(l, g, made) && CanVisit(g, l.prod.Filling?, v)
    ensures LaneOk(if v.Leave? && l.prod.Queued? then LetIn(l, v.items) else l, Visited(g, v), made)
  {
    VisitKeeps(g, l.prod.Filling?, v);
    if v.Leave? && l.prod.Queued? {
      LetInKept(l, v.items, Visited(g, v), made);
    }
  }

  lemma ClientKeepsLanes<K, V>(s: State<K, V>, i: nat, v: Visit<map<K, V>>)
    requires Sized(s) && LanesOk(s) && i < |s.lanes| && CanVisit(s.gates[i], s.lanes[i].prod.Filling?, v)
    ensures LanesOk(AfterVisit(s, i, v))
  {
    assert LaneOk(s.lanes[i], s.gates[i], s.made);
    ClientKeepsLane(s.lanes[i], s.gates[i], s.made, v);
    GateReplaced(s, i, AfterVisit(s, i, v));
  }

  lemma ClientKeepsSums<K, V>(s: State<K, V>, i: nat, v: Visit<map<K, V>>)
    requires Sized(s) && LanesOk(s) && SumsOk(s) && i < |s.lanes|
    ensures SumsOk(AfterVisit(s, i, v))
  {
    assert LaneOk(s.lanes[i], s.gates[i], s.made);
    SumsReplaced(s, i, AfterVisit(s, i, v), multiset{});
  }

  lemma ClientKeeps<K, V>(inTurn: bool, s: State<K, V>, i: nat, v: Visit<map<K, V>>)
    requires Inv(s) && Enabled(inTurn, s, Client(i, v))
    ensures Inv(AfterVisit(s, i, v))
  {
    ClientKeepsLanes(s, i, v);
    ClientKeepsSums(s, i, v);
    ClientKeepsFlags(s, i, v);
  }

  lemma ClientKeepsFlags<K, V>(s: State<K, V>, i: nat, v: Visit<map<K, V>>)
    requires Sized(s) && FlagsOk(s) && i < |s.lanes|
    ensures FlagsOk(AfterVisit(s, i, v))
  {}

  /** Every action of the iterator and of other clients keeps the invariant. */
  lemma StepKeeps<K, V>(inTurn: bool, s: State<K, V>, a: Action<K, V>)
    requires Inv(s) && Enabled(inTurn, s, a)
    ensures Inv(After(inTurn, s, a))
  {
    match a {
      case On(i, m) => MoveKeeps(inTurn, s, i, m);
      case MakeOut => MakeOutKeeps(inTurn, s);
      case CloseOut =>
      case Consume => ConsumeKeeps(inTurn, s);
      case Client(i, v) => ClientKeeps(inTurn, s, i, v);
      case Elsewhere =>
    }
  }

  // ---- sends never wait ----

  lemma LaneSizes<K, V>(l: Lane<K, V>)
    requires Conserved(l) && l.cap == |l.taken|
    ensures |Unsent(l)| + |l.buf| + |InHand(l)| + |l.passed| == l.cap
  {
    assert |multiset(l.taken.Items)| == |l.taken.Items| == |l.taken|;
    assert |multiset(l.buf)| == |l.buf|;
    assert |Unsent(l) + multiset(l.buf) + InHand(l) + l.passed| ==
      |Unsent(l)| + |multiset(l.buf)| + |InHand(l)| + |l.passed|;
  }

  ghost predicate LanesConserved<K, V>(lanes: seq<Lane<K, V>>) {
    forall j :: 0 <= j < |lanes| ==> Conserved(lanes[j]) && lanes[j].cap == |lanes[j].taken|
  }

  function PassedCount<K(==), V(==)>(lanes: seq<Lane<K, V>>): nat {
    if lanes == [] then 0 else PassedCount(lanes[..|lanes| - 1]) + |lanes[|lanes| - 1].passed|
  }

  lemma {:induction false} CountPassed<K, V>(lanes: seq<Lane<K, V>>)
    ensures |Passed(lanes)| == PassedCount(lanes)
  {
    if lanes != [] { CountPassed(lanes[..|lanes| - 1]); }
  }

  lemma LaneRoom<K, V>(l: Lane<K, V>)
    requires Conserved(l) && l.cap == |l.taken|
    ensures |l.passed| <= l.cap && (l.fwd.Holding? ==> |l.passed| < l.cap)
  {
    LaneSizes(l);
    assert l.fwd.Holding? ==> |InHand(l)| == 1;
  }

  lemma {:induction false} PassedFits<K, V>(lanes: seq<Lane<K, V>>, room: bool)
    requires LanesConserved(lanes)
    requires room ==> exists j :: 0 <= j < |lanes| && lanes[j].fwd.Holding?
    ensures PassedCount(lanes) <= Caps(lanes)
    ensures room ==> PassedCount(lanes) < Caps(lanes)
  {
    if lanes != [] {
      var n := |lanes| - 1;
      var rest := lanes[..n];
      LaneRoom(lanes[n]);
      assert LanesConserved(rest);
      if room && !lanes[n].fwd.Holding? {
        var j :| 0 <= j < |lanes| && lanes[j].fwd.Holding?;
        assert rest[j].fwd.Holding?;
        PassedFits(rest, true);
      } else {
        PassedFits(rest, false);
      }
    }
  }

  /** A producer with something to send finds room in its channel, and a forwarder
      that holds something finds room in the output, whether or not the caller reads. */
  lemma SendsNeverWait<K, V>(inTurn: bool, s: State<K, V>, i: nat)
    requires Inv(s) && i < |s.lanes|
    ensures s.lanes[i].prod.Filling? ==> forall k :: k in s.lanes[i].prod.todo ==> Enabled(inTurn, s, On(i, Send(k)))
    ensures s.lanes[i].fwd.Holding? ==> Enabled(inTurn, s, On(i, Forward))
  {
    var l := s.lanes[i];
    assert LaneOk(l, s.gates[i], s.made);
    LaneSizes(l);
    if l.prod.Filling? {
      forall k | k in l.prod.todo ensures Enabled(inTurn, s, On(i, Send(k))) {
        assert (k, l.prod.todo[k]) in l.prod.todo.Items;
        assert |multiset(l.prod.todo.Items)| > 0;
      }
    }
    if l.fwd.Holding? {
      forall j | 0 <= j < |s.lanes| ensures Conserved(s.lanes[j]) && s.lanes[j].cap == |s.lanes[j].taken| {
        assert LaneOk(s.lanes[j], s.gates[j], s.made);
      }
      PassedFits(s.lanes, true);
      CountPassed(s.lanes);
      OutSize(s.consumed, s.out);
    }
  }

  lemma OutSize<T>(a: seq<T>, b: seq<T>)
    ensures |multiset(a) + multiset(b)| == |a| + |b|
  {
    assert |multiset(a)| == |a| && |multiset(b)| == |b|;
  }

  // ---- progress ----

  /** Steps of the iterator's own goroutines: neither the reading caller's nor a client's. */
  ghost predicate Own<K, V>(a: Action<K, V>) { a.On? || a.MakeOut? || a.CloseOut? }

  /** A client ahead of queued producer `i` goes on. */
  ghost predicate GoesAt<K, V>(a: Action<K, V>, i: nat) { a.Client? && a.i == i && Goes(a.visit) }

  /** What the producer of a lane can do next, if it is not queued. */
  lemma ProducerMove<K, V>(l: Lane<K, V>, g: Gate<map<K, V>>, made: bool) returns (m: Move<K>)
    requires LaneOk(l, g, made) && !l.prod.Closed? && !l.prod.Queued?
    ensures CanMove(l, g, m) && !m.Forward? && (m.Ask? <==> l.prod.Waiting?)
  {
    match l.prod
    case Waiting => m := Ask;
    case Unlocked => m := Close;
    case Filling(todo) =>
      if todo == map[] {
        m := Unlock;
      } else {
        var k :| k in todo;
        LaneSizes(l);
        assert (k, todo[k]) in todo.Items;
        assert |multiset(todo.Items)| > 0;
        m := Send(k);
      }
  }

  lemma {:induction false} FirstOpen<K, V>(lanes: seq<Lane<K, V>>) returns (i: nat)
    ensures i <= |lanes| && (forall j :: 0 <= j < i ==> lanes[j].prod.Closed?)
    ensures i < |lanes| ==> !lanes[i].prod.Closed?
  {
    if lanes == [] || !lanes[0].prod.Closed? {
      i := 0;
    } else {
      var k := FirstOpen(lanes[1..]);
      i := k + 1;
      assert forall j :: 1 <= j < i ==> lanes[j] == lanes[1..][j - 1];
    }
  }

  lemma ProducerActs<K, V>(inTurn: bool, s: State<K, V>, i: nat) returns (a: Action<K, V>)
    requires Inv(s) && i < |s.lanes| && !s.lanes[i].prod.Closed? && forall j :: 0 <= j < i ==> s.lanes[j].prod.Closed?
    ensures Enabled(inTurn, s, a) && (Own(a) || Waits(s, a))
  {
    assert LaneOk(s.lanes[i], s.gates[i], s.made);
    if s.lanes[i].prod.Queued? {
      var v := SomeoneGoes(s.gates[i]);
      a := Client(i, v);
    } else {
      var m := ProducerMove(s.lanes[i], s.gates[i], s.made);
      a := On(i, m);
    }
  }

  lemma ForwarderActs<K, V>(inTurn: bool, s: State<K, V>, i: nat) returns (a: Action<K, V>)
    requires Inv(s) && s.made && i < |s.lanes| && s.lanes[i].prod.Closed? && !s.lanes[i].fwd.Done?
    ensures Enabled(inTurn, s, a) && Own(a)
  {
    assert LaneOk(s.lanes[i], s.gates[i], s.made);
    SendsNeverWait(inTurn, s, i);
    a := On(i, if s.lanes[i].fwd.Holding? then Forward else if s.lanes[i].buf == [] then Finish else Receive);
  }

  /** A producer is queued, and this is a client ahead of it that goes on. */
  ghost predicate Waits<K, V>(s: State<K, V>, a: Action<K, V>) {
    && a.Client? && a.i < |s.lanes| && s.lanes[a.i].prod.Queued? && Goes(a.visit)
  }

  /** As long as the output is not closed some goroutine of the iterator can act, even if
      the caller never reads, or a producer is queued and a client ahead of it can go on. */
  lemma Progress<K, V>(inTurn: bool, s: State<K, V>) returns (a: Action<K, V>)
    requires Inv(s) && !s.outClosed
    ensures Enabled(inTurn, s, a) && (Own(a) || Waits(s, a))
  {
    var i := FirstOpen(s.lanes);
    if i < |s.lanes| {
      a := ProducerActs(inTurn, s, i);
    } else if !s.made {
      a := MakeOut;
    } else if j :| 0 <= j < |s.lanes| && !s.lanes[j].fwd.Done? {
      a := ForwarderActs(inTurn, s, j);
    } else {
      a := CloseOut;
    }
  }

  /** How far a producer is from holding its lock. */
  function ToLock<K, V>(l: Lane<K, V>): nat { if l.prod.Waiting? then 2 else if l.prod.Queued? then 1 else 0 }

  function LocksLeft<K, V>(lanes: seq<Lane<K, V>>): nat {
    if lanes == [] then 0 else LocksLeft(lanes[..|lanes| - 1]) + ToLock(lanes[|lanes| - 1])
  }

  function ProducerWork<K, V>(p: Producer<K, V>): nat {
    match p
    case Filling(todo) => 4 * |todo| + 2
    case Unlocked => 1
    case _ => 0
  }

  function LaneWork<K, V>(l: Lane<K, V>): nat {
    ProducerWork(l.prod) + 3 * |l.buf|
    + (match l.fwd case NotStarted => 1 case Ready => 1 case Holding(_) => 3 case Done => 0)
  }

  function Work<K, V>(lanes: seq<Lane<K, V>>): nat {
    if lanes == [] then 0 else Work(lanes[..|lanes| - 1]) + LaneWork(lanes[|lanes| - 1])
  }

  function StateWork<K, V>(s: State<K, V>): nat {
    Work(s.lanes) + (if s.made then 0 else 1) + if s.outClosed then 0 else 1
  }

  lemma {:induction false} ChangeWork<K, V>(lanes: seq<Lane<K, V>>, i: nat, l: Lane<K, V>)
    requires i < |lanes|
    ensures Work(lanes[i := l]) == Work(lanes) - LaneWork(lanes[i]) + LaneWork(l)
    ensures LocksLeft(lanes[i := l]) == LocksLeft(lanes) - ToLock(lanes[i]) + ToLock(l)
  {
    var n := |lanes| - 1;
    if i == n {
      assert lanes[i := l][..n] == lanes[..n];
    } else {
      assert lanes[i := l][..n] == lanes[..n][i := l];
      ChangeWork(lanes[..n], i, l);
    }
  }

  lemma {:induction false} StartedWork<K, V>(lanes: seq<Lane<K, V>>)
    requires forall j :: 0 <= j < |lanes| ==> lanes[j].fwd.NotStarted?
    ensures Work(Started(lanes)) == Work(lanes) && LocksLeft(Started(lanes)) == LocksLeft(lanes)
  {
    if lanes != [] {
      var n := |lanes| - 1;
      assert Started(lanes)[..n] == Started(lanes[..n]);
      StartedWork(lanes[..n]);
    }
  }

  lemma MoveWorks<K, V>(l: Lane<K, V>, g: Gate<map<K, V>>, m: Move<K>)
    requires CanMove(l, g, m)
    ensures var r := Moved(l, g, m);
            if m.Ask? then ToLock(r) < ToLock(l) else LaneWork(r) < LaneWork(l) && ToLock(r) == ToLock(l)
  {
    if m.Send? {
      assert (l.prod.todo - {m.k}).Keys == l.prod.todo.Keys - {m.k};
      assert |l.prod.todo - {m.k}| == |l.prod.todo| - 1;
    }
  }

  /** Fewer locks are still to be taken, or as many and less work is left. */
  ghost predicate Nearer<K, V>(r: State<K, V>, s: State<K, V>) {
    LocksLeft(r.lanes) < LocksLeft(s.lanes) || (LocksLeft(r.lanes) == LocksLeft(s.lanes) && StateWork(r) < StateWork(s))
  }

  ghost predicate AsNear<K, V>(r: State<K, V>, s: State<K, V>) {
    LocksLeft(r.lanes) == LocksLeft(s.lanes) && StateWork(r) == StateWork(s)
  }

  lemma MoveIsNearer<K, V>(inTurn: bool, s: State<K, V>, i: nat, m: Move<K>)
    requires Sized(s) && Enabled(inTurn, s, On(i, m))
    ensures Nearer(After(inTurn, s, On(i, m)), s)
  {
    ChangeWork(s.lanes, i, Moved(s.lanes[i], s.gates[i], m));
    MoveWorks(s.lanes[i], s.gates[i], m);
  }

  lemma MakeOutIsNearer<K, V>(inTurn: bool, s: State<K, V>)
    requires Inv(s) && Enabled(inTurn, s, MakeOut)
    ensures Nearer(After(inTurn, s, MakeOut), s)
  {
    forall j | 0 <= j < |s.lanes| ensures s.lanes[j].fwd.NotStarted? {
      assert LaneOk(s.lanes[j], s.gates[j], s.made);
    }
    StartedWork(s.lanes);
  }

  lemma LetInIsNearer<K, V>(s: State<K, V>, i: nat, v: Visit<map<K, V>>)
    requires Sized(s) && i < |s.lanes| && v.Leave? && s.lanes[i].prod.Queued?
    ensures Nearer(AfterVisit(s, i, v), s)
  {
    ChangeWork(s.lanes, i, LetIn(s.lanes[i], v.items));
  }

  /** Every step of the iterator's goroutines brings the end nearer, and so does a client
      that lets a queued producer in; no step of others puts it off. */
  lemma StepWorks<K, V>(inTurn: bool, s: State<K, V>, a: Action<K, V>)
    requires Inv(s) && Enabled(inTurn, s, a)
    ensures Own(a) || (a.Client? && a.visit.Leave? && s.lanes[a.i].prod.Queued?) ==> Nearer(After(inTurn, s, a), s)
    ensures Nearer(After(inTurn, s, a), s) || AsNear(After(inTurn, s, a), s)
  {
    match a {
      case On(i, m) => MoveIsNearer(inTurn, s, i, m);
      case MakeOut => MakeOutIsNearer(inTurn, s);
      case Client(i, v) => if v.Leave? && s.lanes[i].prod.Queued? { LetInIsNearer(s, i, v); }
      case _ =>
    }
  }

  // ---- the end ----

  lemma {:induction false} DonePassed<K, V>(lanes: seq<Lane<K, V>>)
    requires forall j :: 0 <= j < |lanes| ==>
      lanes[j].fwd.Done? && lanes[j].prod.Closed? && lanes[j].buf == [] && Conserved(lanes[j])
    ensures Passed(lanes) == Taken(lanes)
  {
    if lanes != [] {
      var n := |lanes| - 1;
      DonePassed(lanes[..n]);
      assert lanes[n].passed == multiset(lanes[n].taken.Items);
    }
  }

  /** When the output is closed, all locks are free and what the caller has read
      together with what is left are exactly the snapshots of the shards. */
  lemma ClosedOutput<K, V>(s: State<K, V>)
    requires Inv(s) && s.outClosed
    ensures forall i :: 0 <= i < |s.lanes| ==> s.lanes[i].prod.Closed? && s.lanes[i].fwd.Done?
    ensures multiset(s.consumed) + multiset(s.out) == Taken(s.lanes)
  {
    forall i | 0 <= i < |s.lanes|
      ensures s.lanes[i].fwd.Done? && s.lanes[i].prod.Closed? && s.lanes[i].buf == [] && Conserved(s.lanes[i])
    {
      assert LaneOk(s.lanes[i], s.gates[i], s.made);
    }
    DonePassed(s.lanes);
  }

  /** A client stores only keys of the shard it has locked. */
  ghost predicate Tidy<K(!new), V>(hash: K -> nat, a: Action<K, V>) {
    a.Client? && a.visit.Leave? ==> forall k :: k in a.visit.items ==> Index(hash, k) == a.i
  }

  ghost predicate Home<K(!new), V>(hash: K -> nat, m: map<K, V>, i: nat) {
    forall k :: k in m ==> Index(hash, k) == i
  }

  /** Every key lives, and was read, only in its own shard. */
  ghost predicate AllHome<K(!new), V>(hash: K -> nat, s: State<K, V>) {
    && |s.gates| == |s.lanes| == SHARD_COUNT
    && forall i :: 0 <= i < SHARD_COUNT ==> Home(hash, s.gates[i].items, i) && Home(hash, s.lanes[i].taken, i)
  }

  lemma StepKeepsHome<K(!new), V>(hash: K -> nat, inTurn: bool, s: State<K, V>, a: Action<K, V>)
    requires AllHome(hash, s) && Enabled(inTurn, s, a) && Tidy(hash, a)
    ensures AllHome(hash, After(inTurn, s, a))
  {
    var r := After(inTurn, s, a);
    forall i | 0 <= i < SHARD_COUNT ensures Home(hash, r.gates[i].items, i) && Home(hash, r.lanes[i].taken, i) {
      assert Home(hash, s.gates[i].items, i) && Home(hash, s.lanes[i].taken, i);
    }
  }

  ghost predicate Start<K(!new), V>(hash: K -> nat, s: State<K, V>) {
    Init(s) && AllHome(hash, s)
  }

  ghost predicate IsRun<K(!new), V(!new)>(
    hash: K -> nat, inTurn: bool, states: seq<State<K, V>>, acts: seq<Action<K, V>>)
  {
    && |states| == |acts| + 1 && Start(hash, states[0])
    && forall j :: 0 <= j < |acts| ==> RunStep(hash, inTurn, states[j], acts[j], states[j + 1])
  }

  /** One step of a run. */
  ghost predicate RunStep<K(!new), V(!new)>(
    hash: K -> nat, inTurn: bool, s: State<K, V>, a: Action<K, V>, r: State<K, V>)
  {
    Sized(s) && Enabled(inTurn, s, a) && Tidy(hash, a) && r == After(inTurn, s, a)
  }

  lemma RunStepKeeps<K(!new), V(!new)>(hash: K -> nat, inTurn: bool, s: State<K, V>, a: Action<K, V>, r: State<K, V>)
    requires Inv(s) && AllHome(hash, s) && RunStep(hash, inTurn, s, a, r)
    ensures Inv(r) && AllHome(hash, r)
  {
    StepKeeps(inTurn, s, a);
    StepKeepsHome(hash, inTurn, s, a);
  }

  lemma InitOk<K, V>(s: State<K, V>)
    requires Init(s)
    ensures Inv(s)
  {
    InitPassed(s.lanes);
    forall i | 0 <= i < |s.lanes| ensures LaneOk(s.lanes[i], s.gates[i], s.made) {
      var l: Lane<K, V> := Lane(Waiting, 0, [], NotStarted, map[], multiset{});
      assert s.lanes[i] == l && multiset(l.taken.Items) == multiset{};
    }
  }

  lemma {:induction false} InitPassed<K, V>(lanes: seq<Lane<K, V>>)
    requires forall i :: 0 <= i < |lanes| ==> lanes[i] == Lane(Waiting, 0, [], NotStarted, map[], multiset{})
    ensures Passed(lanes) == multiset{}
  {
    if lanes != [] { InitPassed(lanes[..|lanes| - 1]); }
  }

  lemma {:induction false} RunKeepsInv<K(!new), V(!new)>(
    hash: K -> nat, inTurn: bool, states: seq<State<K, V>>, acts: seq<Action<K, V>>, j: nat)
    requires IsRun(hash, inTurn, states, acts) && j <= |acts|
    ensures Inv(states[j]) && AllHome(hash, states[j])
  {
    if j == 0 {
      InitOk(states[0]);
    } else {
      RunKeepsInv(hash, inTurn, states, acts, j - 1);
      RunStepKeeps(hash, inTurn, states[j - 1], acts[j - 1], states[j]);
    }
  }

  /** The output is made only when every shard has been locked; and the int64 map locks one
      shard after the other, and makes it only when all locks are free again. */
  ghost predicate Orderly<K, V>(inTurn: bool, s: State<K, V>) {
    && (s.made ==> forall j :: 0 <= j < |s.lanes| ==> Taking(s.lanes[j].prod) || Past(s.lanes[j].prod))
    && (inTurn && s.made ==> forall j :: 0 <= j < |s.lanes| ==> s.lanes[j].prod.Closed?)
    && (inTurn ==> forall i, j :: 0 <= i < j < |s.lanes| && !s.lanes[j].prod.Waiting? ==> s.lanes[i].prod.Closed?)
  }

  predicate Taking<K, V>(p: Producer<K, V>) { p.Filling? }

  predicate Past<K, V>(p: Producer<K, V>) { p.Unlocked? || p.Closed? }

  ghost predicate OneLock<K, V>(lanes: seq<Lane<K, V>>) {
    forall i, j :: 0 <= i < j < |lanes| ==> !(Taking(lanes[i].prod) && Taking(lanes[j].prod))
  }

  lemma OrderOfLane<K, V>(inTurn: bool, s: State<K, V>, r: State<K, V>, i: nat)
    requires Orderly(inTurn, s) && i < |s.lanes| == |r.lanes| && r.lanes == s.lanes[i := r.lanes[i]]
    requires r.made == s.made
    requires s.lanes[i].prod.Closed? ==> r.lanes[i].prod.Closed?
    requires Taking(s.lanes[i].prod) || Past(s.lanes[i].prod) ==> Taking(r.lanes[i].prod) || Past(r.lanes[i].prod)
    requires inTurn && s.lanes[i].prod.Waiting? && !r.lanes[i].prod.Waiting? ==>
      forall j :: 0 <= j < i ==> s.lanes[j].prod.Closed?
    ensures Orderly(inTurn, r)
  {}

  lemma OrderKept<K, V>(inTurn: bool, s: State<K, V>, a: Action<K, V>)
    requires Sized(s) && Enabled(inTurn, s, a) && Orderly(inTurn, s)
    ensures Orderly(inTurn, After(inTurn, s, a))
  {
    if a.On? || (a.Client? && a.visit.Leave? && s.lanes[a.i].prod.Queued?) {
      OrderOfLane(inTurn, s, After(inTurn, s, a), a.i);
    }
  }

  /** In every run; so the int64 map holds one lock at a time. */
  lemma {:induction false} RunIsOrderly<K(!new), V(!new)>(
    hash: K -> nat, inTurn: bool, states: seq<State<K, V>>, acts: seq<Action<K, V>>, n: nat)
    requires IsRun(hash, inTurn, states, acts) && n <= |acts|
    ensures Orderly(inTurn, states[n])
    ensures inTurn ==> OneLock(states[n].lanes)
  {
    if n > 0 {
      RunIsOrderly(hash, inTurn, states, acts, n - 1);
      assert RunStep(hash, inTurn, states[n - 1], acts[n - 1], states[n]);
      OrderKept(inTurn, states[n - 1], acts[n - 1]);
    }
  }

  /** In every run of the iterator and other clients, the closed output carries, no
      more and no less, what each shard held when it was locked. */
  lemma RunConserves<K(!new), V(!new)>(hash: K -> nat, inTurn: bool, states: seq<State<K, V>>, acts: seq<Action<K, V>>)
    requires IsRun(hash, inTurn, states, acts) && states[|acts|].outClosed
    ensures var s := states[|acts|]; multiset(s.consumed) + multiset(s.out) == Taken(s.lanes)
    ensures forall i :: 0 <= i < |states[|acts|].lanes| ==> !states[|acts|].lanes[i].prod.Filling?
  {
    RunKeepsInv(hash, inTurn, states, acts, |acts|);
    ClosedOutput(states[|acts|]);
  }

  // ---- Items ----

  function Snapshots<K(==), V(==)>(lanes: seq<Lane<K, V>>): (ss: seq<map<K, V>>)
    ensures |ss| == |lanes| && forall i :: 0 <= i < |ss| ==> ss[i] == lanes[i].taken
  {
    seq(|lanes|, i requires 0 <= i < |lanes| => lanes[i].taken)
  }

  /** The map that Items builds from what it reads. */
  function Built<K(==), V(==)>(ts: seq<(K, V)>): map<K, V> {
    if ts == [] then map[] else Built(ts[..|ts| - 1])[ts[|ts| - 1].0 := ts[|ts| - 1].1]
  }

  lemma {:induction false} BuiltKeys<K(!new), V(!new)>(ts: seq<(K, V)>)
    ensures forall k :: k in Built(ts) ==> (k, Built(ts)[k]) in ts
    ensures forall t :: t in ts ==> t.0 in Built(ts)
  {
    if ts != [] {
      var n := |ts| - 1;
      assert ts == ts[..n] + [ts[n]];
      BuiltKeys(ts[..n]);
    }
  }

  lemma {:induction false} TakenHas<K(!new), V(!new)>(lanes: seq<Lane<K, V>>)
    ensures forall t :: t in Taken(lanes) <==> exists i :: 0 <= i < |lanes| && t in lanes[i].taken.Items
  {
    if lanes != [] {
      var n := |lanes| - 1;
      TakenHas(lanes[..n]);
      forall t ensures t in Taken(lanes) <==> exists i :: 0 <= i < |lanes| && t in lanes[i].taken.Items {
        assert t in Taken(lanes) <==> t in Taken(lanes[..n]) || t in lanes[n].taken.Items;
        if i :| 0 <= i < n && t in lanes[..n][i].taken.Items {
          assert t in lanes[i].taken.Items;
        }
        if i :| 0 <= i < |lanes| && t in lanes[i].taken.Items {
          assert i < n ==> t in lanes[..n][i].taken.Items;
        }
      }
    }
  }

  /** Once the caller has read everything, it has read what the snapshots hold. */
  lemma ReadHas<K(!new), V(!new)>(s: State<K, V>, t: (K, V))
    requires Inv(s) && s.outClosed && s.out == []
    ensures t in s.consumed <==> exists i :: 0 <= i < |s.lanes| && t in s.lanes[i].taken.Items
  {
    ClosedOutput(s);
    TakenHas(s.lanes);
    assert multiset(s.consumed) + multiset(s.out) == multiset(s.consumed);
    assert t in s.consumed <==> t in multiset(s.consumed);
  }

  /** ... and Items has built the union of the snapshots. */
  lemma BuiltIsFlat<K(!new), V(!new)>(hash: K -> nat, s: State<K, V>)
    requires Inv(s) && s.outClosed && s.out == [] && Placed(hash, Snapshots(s.lanes))
    ensures Built(s.consumed) == Flat(Snapshots(s.lanes))
  {
    var ss, m := Snapshots(s.lanes), Built(s.consumed);
    BuiltKeys(s.consumed);
    FlatAt(hash, ss);
    forall k ensures Lookup(m, k) == Lookup(Flat(ss), k) {
      var i := Index(hash, k);
      if k in m {
        ReadHas(s, (k, m[k]));
        var j :| 0 <= j < |s.lanes| && (k, m[k]) in s.lanes[j].taken.Items;
        assert k in ss[j] && ss[j][k] == m[k];
      } else if k in ss[i] {
        assert (k, ss[i][k]) in s.lanes[i].taken.Items;
        ReadHas(s, (k, ss[i][k]));
        assert false;
      }
    }
    SameAnswers(m, Flat(ss));
  }

  /** In every run whose output the caller has read to the end, Items has built the
      union of what the shards held when they were locked. */
  lemma ItemsIsFlat<K(!new), V(!new)>(hash: K -> nat, inTurn: bool, states: seq<State<K, V>>, acts: seq<Action<K, V>>)
    requires IsRun(hash, inTurn, states, acts) && states[|acts|].outClosed && states[|acts|].out == []
    ensures var s := states[|acts|];
            Placed(hash, Snapshots(s.lanes)) && Built(s.consumed) == Flat(Snapshots(s.lanes))
  {
    var s := states[|acts|];
    RunKeepsInv(hash, inTurn, states, acts, |acts|);
    forall i, k | 0 <= i < |s.lanes| && k in Snapshots(s.lanes)[i] ensures Index(hash, k) == i {
      assert Home(hash, s.lanes[i].taken, i);
    }
    BuiltIsFlat(hash, s);
  }

  // ---- endless runs ----

  ghost predicate StepAt<K(!new), V(!new)>(
    hash: K -> nat, inTurn: bool, run: nat -> State<K, V>, act: nat -> Action<K, V>, n: nat)
  {
    RunStep(hash, inTurn, run(n), act(n), run(n + 1))
  }

  ghost predicate IsEndless<K(!new), V(!new)>(
    hash: K -> nat, inTurn: bool, run: nat -> State<K, V>, act: nat -> Action<K, V>)
  {
    Start(hash, run(0)) && forall n: nat :: StepAt(hash, inTurn, run, act, n)
  }

  lemma {:induction false} EndlessKeepsInv<K(!new), V(!new)>(
    hash: K -> nat, inTurn: bool, run: nat -> State<K, V>, act: nat -> Action<K, V>, n: nat)
    requires IsEndless(hash, inTurn, run, act)
    ensures Inv(run(n)) && AllHome(hash, run(n))
  {
    if n == 0 {
      InitOk(run(0));
    } else {
      EndlessKeepsInv(hash, inTurn, run, act, n - 1);
      assert StepAt(hash, inTurn, run, act, n - 1);
      RunStepKeeps(hash, inTurn, run(n - 1), act(n - 1), run(n));
    }
  }

  lemma EndlessWorks<K(!new), V(!new)>(
    hash: K -> nat, inTurn: bool, run: nat -> State<K, V>, act: nat -> Action<K, V>, n: nat)
    requires IsEndless(hash, inTurn, run, act)
    ensures Own(act(n)) ==> Nearer(run(n + 1), run(n))
    ensures Nearer(run(n + 1), run(n)) || AsNear(run(n + 1), run(n))
  {
    assert StepAt(hash, inTurn, run, act, n);
    EndlessKeepsInv(hash, inTurn, run, act, n);
    StepWorks(inTurn, run(n), act(n));
  }

  ghost predicate Settled<K, V>(run: nat -> State<K, V>, n: nat) {
    forall k: nat :: k >= n ==> !Nearer(run(k + 1), run(k))
  }

  /** From some moment on nothing comes nearer to the end any more. */
  lemma NearingEnds<K(!new), V(!new)>(
    hash: K -> nat, inTurn: bool, run: nat -> State<K, V>, act: nat -> Action<K, V>)
    returns (end: nat)
    requires IsEndless(hash, inTurn, run, act)
    ensures Settled(run, end)
  {
    var a, b := (n: nat) => LocksLeft(run(n).lanes), (n: nat) => StateWork(run(n));
    forall n: nat ensures NoRise(a, b, n) {
      EndlessWorks(hash, inTurn, run, act, n);
    }
    end := Settles(a, b, 0);
    forall n: nat | n >= end ensures !Nearer(run(n + 1), run(n)) {
      assert !Falls(a, b, n);
    }
  }

  /** In no schedule do the iterator's goroutines take steps for ever. */
  lemma StepsEnd<K(!new), V(!new)>(
    hash: K -> nat, inTurn: bool, run: nat -> State<K, V>, act: nat -> Action<K, V>)
    returns (end: nat)
    requires IsEndless(hash, inTurn, run, act)
    ensures forall n: nat :: n >= end ==> !Own(act(n))
  {
    end := NearingEnds(hash, inTurn, run, act);
    forall n: nat | n >= end ensures !Own(act(n)) {
      EndlessWorks(hash, inTurn, run, act, n);
    }
  }

  ghost predicate OwnPossible<K(!new), V(!new)>(inTurn: bool, s: State<K, V>) {
    Sized(s) && exists a :: Own(a) && Enabled(inTurn, s, a)
  }

  ghost predicate GoPossible<K(!new), V(!new)>(hash: K -> nat, inTurn: bool, s: State<K, V>, i: nat) {
    Sized(s) && exists a :: GoesAt(a, i) && Tidy(hash, a) && Enabled(inTurn, s, a)
  }

  ghost predicate AlwaysOwn<K(!new), V(!new)>(inTurn: bool, run: nat -> State<K, V>, n: nat) {
    forall m: nat :: m >= n ==> OwnPossible(inTurn, run(m))
  }

  ghost predicate SomeOwn<K, V>(act: nat -> Action<K, V>, n: nat) {
    exists m: nat :: m >= n && Own(act(m))
  }

  ghost predicate AlwaysGo<K(!new), V(!new)>(hash: K -> nat, inTurn: bool, run: nat -> State<K, V>, i: nat, n: nat) {
    forall m: nat :: m >= n ==> GoPossible(hash, inTurn, run(m), i)
  }

  ghost predicate SomeGo<K, V>(act: nat -> Action<K, V>, i: nat, n: nat) {
    exists m: nat :: m >= n && GoesAt(act(m), i)
  }

  /** If from some moment on a step of the iterator's goroutines is always possible, one is
      taken; and if from some moment on a client on a shard can always go on, one does.
      Nothing is asked of the caller that reads. */
  ghost predicate Fair<K(!new), V(!new)>(
    hash: K -> nat, inTurn: bool, run: nat -> State<K, V>, act: nat -> Action<K, V>)
  {
    && (forall n: nat :: AlwaysOwn(inTurn, run, n) ==> SomeOwn(act, n))
    && (forall n: nat, i: nat :: AlwaysGo(hash, inTurn, run, i, n) ==> SomeGo(act, i, n))
  }

  /** A queued producer stays queued, nobody new gets ahead of it, and each client that
      goes on leaves fewer ahead. */
  lemma QueuedStep<K(!new), V(!new)>(
    hash: K -> nat, inTurn: bool, run: nat -> State<K, V>, act: nat -> Action<K, V>, i: nat, n: nat)
    requires IsEndless(hash, inTurn, run, act) && i < SHARD_COUNT
    requires AllHome(hash, run(n)) && run(n).lanes[i].prod.Queued?
    requires !Nearer(run(n + 1), run(n))
    ensures AllHome(hash, run(n + 1)) && run(n + 1).lanes[i].prod.Queued?
    ensures Ahead(run(n + 1).gates[i]) <= Ahead(run(n).gates[i])
    ensures GoesAt(act(n), i) ==> Ahead(run(n + 1).gates[i]) < Ahead(run(n).gates[i])
  {
    var s := run(n);
    assert StepAt(hash, inTurn, run, act, n);
    EndlessKeepsInv(hash, inTurn, run, act, n);
    EndlessKeepsInv(hash, inTurn, run, act, n + 1);
    StepWorks(inTurn, s, act(n));
    assert LaneOk(s.lanes[i], s.gates[i], s.made);
    if act(n).Client? && act(n).i == i {
      AheadFalls(s.gates[i], act(n).visit);
    }
  }

  lemma {:induction false} QueuedStays<K(!new), V(!new)>(
    hash: K -> nat, inTurn: bool, run: nat -> State<K, V>, act: nat -> Action<K, V>, i: nat, n: nat, m: nat)
    requires IsEndless(hash, inTurn, run, act) && i < SHARD_COUNT
    requires AllHome(hash, run(n)) && run(n).lanes[i].prod.Queued? && n <= m
    requires Settled(run, n)
    ensures AllHome(hash, run(m)) && run(m).lanes[i].prod.Queued? && Ahead(run(m).gates[i]) <= Ahead(run(n).gates[i])
    decreases m - n
  {
    if n < m {
      QueuedStays(hash, inTurn, run, act, i, n, m - 1);
      QueuedStep(hash, inTurn, run, act, i, m - 1);
    }
  }

  lemma QueuedCanGo<K(!new), V(!new)>(hash: K -> nat, inTurn: bool, s: State<K, V>, i: nat)
    requires Inv(s) && AllHome(hash, s) && i < SHARD_COUNT && s.lanes[i].prod.Queued?
    ensures GoPossible(hash, inTurn, s, i)
  {
    assert LaneOk(s.lanes[i], s.gates[i], s.made);
    assert Home(hash, s.gates[i].items, i);
    var v := SomeoneGoes(s.gates[i]);
    var a: Action<K, V> := Client(i, v);
    assert GoesAt(a, i) && Tidy(hash, a) && Enabled(inTurn, s, a);
  }

  lemma QueuedAlwaysGo<K(!new), V(!new)>(
    hash: K -> nat, inTurn: bool, run: nat -> State<K, V>, act: nat -> Action<K, V>, i: nat, n: nat)
    requires IsEndless(hash, inTurn, run, act) && i < SHARD_COUNT
    requires AllHome(hash, run(n)) && run(n).lanes[i].prod.Queued?
    requires Settled(run, n)
    ensures AlwaysGo(hash, inTurn, run, i, n)
  {
    forall m: nat | m >= n ensures GoPossible(hash, inTurn, run(m), i) {
      QueuedStays(hash, inTurn, run, act, i, n, m);
      EndlessKeepsInv(hash, inTurn, run, act, m);
      QueuedCanGo(hash, inTurn, run(m), i);
    }
  }

  lemma SettledLater<K, V>(run: nat -> State<K, V>, n: nat, m: nat)
    requires Settled(run, n) && n <= m
    ensures Settled(run, m)
  {}

  /** So under a fair schedule no producer is queued for good. */
  lemma {:induction false} NotQueuedForGood<K(!new), V(!new)>(
    hash: K -> nat, inTurn: bool, run: nat -> State<K, V>, act: nat -> Action<K, V>, i: nat, n: nat)
    requires IsEndless(hash, inTurn, run, act) && Fair(hash, inTurn, run, act) && Settled(run, n)
    requires i < SHARD_COUNT && AllHome(hash, run(n))
    ensures !run(n).lanes[i].prod.Queued?
    decreases Ahead(run(n).gates[i])
  {
    if run(n).lanes[i].prod.Queued? {
      QueuedAlwaysGo(hash, inTurn, run, act, i, n);
      assert SomeGo(act, i, n);
      var m: nat :| m >= n && GoesAt(act(m), i);
      QueuedStays(hash, inTurn, run, act, i, n, m);
      SettledLater(run, n, m + 1);
      QueuedStep(hash, inTurn, run, act, i, m);
      NotQueuedForGood(hash, inTurn, run, act, i, m + 1);
    }
  }

  lemma OwnPossibleAt<K(!new), V(!new)>(
    hash: K -> nat, inTurn: bool, run: nat -> State<K, V>, act: nat -> Action<K, V>, m: nat)
    requires IsEndless(hash, inTurn, run, act) && Fair(hash, inTurn, run, act) && Settled(run, m) && !run(m).outClosed
    ensures OwnPossible(inTurn, run(m))
  {
    EndlessKeepsInv(hash, inTurn, run, act, m);
    var a := Progress(inTurn, run(m));
    if !Own(a) {
      NotQueuedForGood(hash, inTurn, run, act, a.i, m);
    }
  }

  /** Under every fair schedule the output is closed, whatever other clients do and
      whether or not the caller reads. */
  lemma OutputCloses<K(!new), V(!new)>(hash: K -> nat, inTurn: bool, run: nat -> State<K, V>, act: nat -> Action<K, V>)
    requires IsEndless(hash, inTurn, run, act) && Fair(hash, inTurn, run, act)
    ensures exists n :: run(n).outClosed
  {
    if forall n :: !run(n).outClosed {
      var end := NearingEnds(hash, inTurn, run, act);
      forall m: nat | m >= end ensures OwnPossible(inTurn, run(m)) {
        SettledLater(run, end, m);
        OwnPossibleAt(hash, inTurn, run, act, m);
      }
      assert AlwaysOwn(inTurn, run, end) && SomeOwn(act, end);
      var m: nat :| m >= end && Own(act(m));
      EndlessWorks(hash, inTurn, run, act, m);
      assert false;
    }
  }
}
