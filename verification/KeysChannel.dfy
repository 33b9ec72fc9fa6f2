/** Keys: it counts the keys of one shard after the other, each under the shard's lock.
    Then one goroutine for each shard sends its keys, under the shard's lock again, into
    one channel whose capacity is that count. A sender may have to wait while it holds its
    lock; the caller reads until the channel is closed. */
module KeysChannel {
  import opened ShardSpec
  import opened RwLocks
  import opened Schedules

  datatype Sender<K(==)> = Waiting | Queued | Sending(todo: set<K>) | Finished

  /** The count has reached shard `next`, and stands outside its lock, in the queue for it
      or inside; it is over at 32. */
  datatype Counter = Counter(next: nat, place: Place)
  datatype Place = Outside | InQueue | Inside

  /** The gates hold the live keys of the shards; `taken` is auxiliary: the keys when the
      sender locked. */
  datatype State<K(==)> = State(
    gates: seq<Gate<set<K>>>, counter: Counter, senders: seq<Sender<K>>, taken: seq<set<K>>,
    cap: nat, buf: seq<K>, closed: bool, result: seq<K>, returned: bool)

  datatype Action<K(==)> =
    | Look                     // the count asks for the lock of its shard
    | Add                      // and adds the number of its keys
    | Ask(i: nat)              // for the lock of a shard: it is taken, or the sender queues
    | Send(i: nat, k: K)       // into the buffer
    | HandOver(i: nat, k: K)   // to the waiting caller, the only way if the capacity is 0
    | Unlock(i: nat)
    | Receive
    | Close
    | Return
    | Client(i: nat, visit: Visit<set<K>>)
    | Elsewhere

  ghost predicate Sized<K>(s: State<K>) {
    |s.gates| == |s.senders| == |s.taken| == SHARD_COUNT
  }

  /** Keys holds the lock of shard `i`. */
  ghost predicate Ours<K>(s: State<K>, i: nat)
    requires Sized(s) && i < SHARD_COUNT
  {
    s.senders[i].Sending? || s.counter == Counter(i, Inside)
  }

  /** Keys is queued for the lock of shard `i`. */
  ghost predicate Queues<K>(s: State<K>, i: nat)
    requires Sized(s) && i < SHARD_COUNT
  {
    s.senders[i].Queued? || s.counter == Counter(i, InQueue)
  }

  ghost predicate Enabled<K(!new)>(hash: K -> nat, s: State<K>, a: Action<K>)
    requires Sized(s)
  {
    match a
    case Look => s.counter.next < SHARD_COUNT && s.counter.place.Outside?
    case Add => s.counter.next < SHARD_COUNT && s.counter.place.Inside?
    case Ask(i) => i < SHARD_COUNT && s.senders[i].Waiting? && s.counter.next == SHARD_COUNT
    case Send(i, k) => i < SHARD_COUNT && s.senders[i].Sending? && k in s.senders[i].todo && |s.buf| < s.cap
    case HandOver(i, k) =>
      i < SHARD_COUNT && s.senders[i].Sending? && k in s.senders[i].todo && s.buf == [] && !s.returned
    case Unlock(i) => i < SHARD_COUNT && s.senders[i] == Sending({})
    case Receive => s.buf != [] && !s.returned
    case Close => !s.closed && forall i :: 0 <= i < SHARD_COUNT ==> s.senders[i].Finished?
    case Return => s.closed && s.buf == [] && !s.returned
    case Client(i, v) =>
      && i < SHARD_COUNT && CanVisit(s.gates[i], Ours(s, i), v)
      && (v.Leave? ==> forall k :: k in v.items ==> Index(hash, k) == i)
    case Elsewhere => true
  }

  /** Sender `i` holds the lock of its shard. */
  ghost function LetIn<K>(s: State<K>, i: nat): State<K>
    requires Sized(s) && i < SHARD_COUNT
  {
    s.(senders := s.senders[i := Sending(s.gates[i].items)], taken := s.taken[i := s.gates[i].items])
  }

  ghost function AfterVisit<K>(s: State<K>, i: nat, v: Visit<set<K>>): State<K>
    requires Sized(s) && i < SHARD_COUNT
  {
    var r := s.(gates := s.gates[i := Visited(s.gates[i], v)]);
    if v.Leave? && s.senders[i].Queued? then LetIn(r, i)
    else if v.Leave? && Queues(s, i) then r.(counter := Counter(i, Inside))
    else r
  }

  ghost function AfterSend<K>(s: State<K>, i: nat, k: K): State<K>
    requires Sized(s) && i < SHARD_COUNT && s.senders[i].Sending?
  {
    s.(senders := s.senders[i := Sending(s.senders[i].todo - {k})])
  }

  ghost function After<K(!new)>(hash: K -> nat, s: State<K>, a: Action<K>): State<K>
    requires Sized(s) && Enabled(hash, s, a)
  {
    match a
    case Look =>
      s.(counter := s.counter.(place := if Open(s.gates[s.counter.next]) then Inside else InQueue))
    case Add =>
      var i := s.counter.next;
      s.(cap := s.cap + |s.gates[i].items|, counter := Counter(i + 1, Outside))
    case Ask(i) => if Open(s.gates[i]) then LetIn(s, i) else s.(senders := s.senders[i := Queued])
    case Send(i, k) => AfterSend(s, i, k).(buf := s.buf + [k])
    case HandOver(i, k) => AfterSend(s, i, k).(result := s.result + [k])
    case Unlock(i) => s.(senders := s.senders[i := Finished])
    case Receive => s.(buf := s.buf[1..], result := s.result + [s.buf[0]])
    case Close => s.(closed := true)
    case Return => s.(returned := true)
    case Client(i, v) => AfterVisit(s, i, v)
    case Elsewhere => s
  }

  ghost predicate Init<K(!new)>(hash: K -> nat, s: State<K>) {
    && Sized(s) && s.counter == Counter(0, Outside) && s.cap == 0
    && s.buf == [] && s.result == [] && !s.closed && !s.returned
    && (forall i :: 0 <= i < SHARD_COUNT ==> s.senders[i].Waiting? && s.taken[i] == {} && GateOk(s.gates[i], false))
    && forall i, k :: 0 <= i < SHARD_COUNT && k in s.gates[i].items ==> Index(hash, k) == i
  }

  ghost predicate NoDup<K>(ks: seq<K>) {
    forall i, j :: 0 <= i < j < |ks| ==> ks[i] != ks[j]
  }

  ghost function Left<K>(s: State<K>, i: nat): set<K>
    requires Sized(s) && i < SHARD_COUNT
  {
    if s.senders[i].Sending? then s.senders[i].todo else {}
  }

  ghost predicate SenderOk<K(!new)>(hash: K -> nat, s: State<K>, i: nat)
    requires Sized(s) && i < SHARD_COUNT
  {
    var g, sender := s.gates[i], s.senders[i];
    && (forall k :: k in g.items || k in s.taken[i] ==> Index(hash, k) == i)
    && GateOk(g, Ours(s, i))
    && (s.counter.next < SHARD_COUNT ==> sender.Waiting?)
    && (Queues(s, i) ==> !Open(g))
    && (sender.Waiting? || sender.Queued? ==> s.taken[i] == {})
    && (sender.Sending? ==> s.taken[i] == g.items && sender.todo <= s.taken[i])
  }

  /** What has been sent: all that was taken and is not left. */
  ghost predicate Sent<K(!new)>(hash: K -> nat, s: State<K>, k: K)
    requires Sized(s)
  {
    k in s.result + s.buf <==> k in s.taken[Index(hash, k)] && k !in Left(s, Index(hash, k))
  }

  ghost predicate Inv<K(!new)>(hash: K -> nat, s: State<K>) {
    && Sized(s) && s.counter.next <= SHARD_COUNT && (s.counter.next == SHARD_COUNT ==> s.counter.place.Outside?)
    && (forall i :: 0 <= i < SHARD_COUNT ==> SenderOk(hash, s, i))
    && (forall k :: Sent(hash, s, k))
    && NoDup(s.result + s.buf) && |s.buf| <= s.cap
    && (s.closed ==> forall i :: 0 <= i < SHARD_COUNT ==> s.senders[i].Finished?)
    && (s.returned ==> s.closed && s.buf == [])
  }

  lemma NoDupAppend<K>(ks: seq<K>, k: K)
    requires NoDup(ks) && k !in ks
    ensures NoDup(ks + [k])
  {}

  lemma SendKeeps<K(!new)>(hash: K -> nat, s: State<K>, a: Action<K>)
    requires Inv(hash, s) && Enabled(hash, s, a) && (a.Send? || a.HandOver?)
    ensures Inv(hash, After(hash, s, a))
  {
    var r, k := After(hash, s, a), a.k;
    assert SenderOk(hash, s, a.i) && Sent(hash, s, k);
    NoDupAppend(s.result + s.buf, k);
    assert r.result + r.buf == s.result + s.buf + [k];
    forall j ensures Sent(hash, r, j) { assert Sent(hash, s, j); }
    forall i | 0 <= i < SHARD_COUNT ensures SenderOk(hash, r, i) { assert SenderOk(hash, s, i); }
  }

  /** A sender that is let in has sent nothing yet. */
  lemma LetInKeeps<K(!new)>(hash: K -> nat, s: State<K>, i: nat)
    requires Inv(hash, s) && i < SHARD_COUNT && (s.senders[i].Waiting? || s.senders[i].Queued?)
    requires !s.gates[i].writing && s.counter.next == SHARD_COUNT
    ensures Inv(hash, LetIn(s, i))
  {
    var r := LetIn(s, i);
    assert SenderOk(hash, s, i);
    forall j ensures Sent(hash, r, j) { assert Sent(hash, s, j); }
    forall j | 0 <= j < SHARD_COUNT ensures SenderOk(hash, r, j) { assert SenderOk(hash, s, j); }
  }

  /** One sender's step that takes and sends nothing. */
  lemma SenderMoves<K(!new)>(hash: K -> nat, s: State<K>, i: nat, x: Sender<K>)
    requires Inv(hash, s) && i < SHARD_COUNT && (x.Queued? || x.Finished?) && s.counter.next == SHARD_COUNT
    requires (s.senders[i].Waiting? && x.Queued? && !Open(s.gates[i])) || (s.senders[i] == Sending({}) && x.Finished?)
    ensures Inv(hash, s.(senders := s.senders[i := x]))
  {
    var r := s.(senders := s.senders[i := x]);
    assert SenderOk(hash, s, i);
    forall j ensures Sent(hash, r, j) { assert Sent(hash, s, j); }
    forall j | 0 <= j < SHARD_COUNT ensures SenderOk(hash, r, j) { assert SenderOk(hash, s, j); }
  }

  /** The count moves on. */
  lemma CounterKeeps<K(!new)>(hash: K -> nat, s: State<K>, a: Action<K>)
    requires Inv(hash, s) && Enabled(hash, s, a) && (a.Look? || a.Add?)
    ensures Inv(hash, After(hash, s, a))
  {
    var r := After(hash, s, a);
    forall j ensures Sent(hash, r, j) { assert Sent(hash, s, j); }
    forall i | 0 <= i < SHARD_COUNT ensures SenderOk(hash, r, i) { assert SenderOk(hash, s, i); }
  }

  lemma CallerKeeps<K(!new)>(hash: K -> nat, s: State<K>, a: Action<K>)
    requires Inv(hash, s) && Enabled(hash, s, a) && (a.Receive? || a.Close? || a.Return?)
    ensures Inv(hash, After(hash, s, a))
  {
    var r := After(hash, s, a);
    if a.Receive? {
      assert s.buf == [s.buf[0]] + s.buf[1..];
    }
    assert r.result + r.buf == s.result + s.buf;
    forall j ensures Sent(hash, r, j) { assert Sent(hash, s, j); }
    forall i | 0 <= i < SHARD_COUNT ensures SenderOk(hash, r, i) { assert SenderOk(hash, s, i); }
  }

  lemma GateKeeps<K(!new)>(hash: K -> nat, s: State<K>, i: nat, g: Gate<set<K>>)
    requires Inv(hash, s) && i < SHARD_COUNT && GateOk(g, Ours(s, i))
    requires (forall k :: k in g.items ==> Index(hash, k) == i)
    requires s.senders[i].Sending? ==> g.items == s.gates[i].items
    requires Queues(s, i) ==> !Open(g)
    ensures Inv(hash, s.(gates := s.gates[i := g]))
  {
    var r := s.(gates := s.gates[i := g]);
    forall j ensures Sent(hash, r, j) { assert Sent(hash, s, j); }
    forall j | 0 <= j < SHARD_COUNT ensures SenderOk(hash, r, j) { assert SenderOk(hash, s, j); }
  }

  lemma ClientKeeps<K(!new)>(hash: K -> nat, s: State<K>, i: nat, v: Visit<set<K>>)
    requires Inv(hash, s) && Enabled(hash, s, Client(i, v))
    ensures Inv(hash, AfterVisit(s, i, v))
  {
    assert SenderOk(hash, s, i);
    var g := Visited(s.gates[i], v);
    VisitKeeps(s.gates[i], Ours(s, i), v);
    if v.Leave? && s.senders[i].Queued? {
      // Letting the sender in and the writer out is one moment.
      var q := s.(gates := s.gates[i := g], senders := s.senders[i := Waiting]);
      forall j ensures Sent(hash, q, j) { assert Sent(hash, s, j); }
      forall j | 0 <= j < SHARD_COUNT ensures SenderOk(hash, q, j) { assert SenderOk(hash, s, j); }
      LetInKeeps(hash, q, i);
      assert LetIn(q, i) == AfterVisit(s, i, v);
    } else if v.Leave? && Queues(s, i) {
      var q := s.(gates := s.gates[i := g], counter := Counter(i, Inside));
      forall j ensures Sent(hash, q, j) { assert Sent(hash, s, j); }
      forall j | 0 <= j < SHARD_COUNT ensures SenderOk(hash, q, j) { assert SenderOk(hash, s, j); }
    } else {
      GateKeeps(hash, s, i, g);
    }
  }

  /** Every step of Keys and of other clients keeps the invariant. */
  lemma StepKeeps<K(!new)>(hash: K -> nat, s: State<K>, a: Action<K>)
    requires Inv(hash, s) && Enabled(hash, s, a)
    ensures Inv(hash, After(hash, s, a))
  {
    if a.Send? || a.HandOver? {
      SendKeeps(hash, s, a);
    } else if a.Look? || a.Add? {
      CounterKeeps(hash, s, a);
    } else if a.Ask? {
      if Open(s.gates[a.i]) { LetInKeeps(hash, s, a.i); } else { SenderMoves(hash, s, a.i, Queued); }
    } else if a.Unlock? {
      assert SenderOk(hash, s, a.i);
      SenderMoves(hash, s, a.i, Finished);
    } else if a.Client? {
      ClientKeeps(hash, s, a.i, a.visit);
    } else if !a.Elsewhere? {
      CallerKeeps(hash, s, a);
    }
  }

  // ---- progress ----

  ghost predicate Own<K>(a: Action<K>) { !a.Client? && !a.Elsewhere? }

  /** A client ahead of Keys on shard `i` goes on. */
  ghost predicate GoesAt<K>(a: Action<K>, i: nat) { a.Client? && a.i == i && Goes(a.visit) }

  lemma ProgressOfCount<K(!new)>(hash: K -> nat, s: State<K>) returns (a: Action<K>)
    requires Inv(hash, s) && s.counter.next < SHARD_COUNT
    ensures Enabled(hash, s, a) && (Own(a) || (a.Client? && Queues(s, a.i) && Goes(a.visit)))
  {
    var i := s.counter.next;
    assert SenderOk(hash, s, i);
    match s.counter.place
    case Outside => a := Look;
    case InQueue =>
      var v := SomeoneGoes(s.gates[i]);
      a := Client(i, v);
    case Inside => a := Add;
  }

  /** Until Keys returns, one of its own steps is possible, or it is queued for a lock and
      a client ahead of it can go on. A sender that has to wait for room holds its lock,
      but the caller then has something to read. */
  lemma Progress<K(!new)>(hash: K -> nat, s: State<K>) returns (a: Action<K>)
    requires Inv(hash, s) && !s.returned
    ensures Enabled(hash, s, a) && (Own(a) || (a.Client? && Queues(s, a.i) && Goes(a.visit)))
  {
    if s.counter.next < SHARD_COUNT {
      a := ProgressOfCount(hash, s);
    } else if i :| 0 <= i < SHARD_COUNT && !s.senders[i].Finished? {
      assert SenderOk(hash, s, i);
      match s.senders[i]
      case Waiting => a := Ask(i);
      case Queued =>
        var v := SomeoneGoes(s.gates[i]);
        a := Client(i, v);
      case Sending(todo) =>
        if todo == {} {
          a := Unlock(i);
        } else {
          var k :| k in todo;
          a := if s.buf == [] then HandOver(i, k) else Receive;
        }
    } else if !s.closed {
      a := Close;
    } else {
      a := if s.buf == [] then Return else Receive;
    }
  }

  /** How far the senders are from holding their locks. */
  function ToLock<K>(x: Sender<K>): nat { if x.Waiting? then 2 else if x.Queued? then 1 else 0 }

  function LocksLeft<K>(senders: seq<Sender<K>>): nat {
    if senders == [] then 0 else LocksLeft(senders[..|senders| - 1]) + ToLock(senders[|senders| - 1])
  }

  /** How far the count is from its end. */
  function CountLeft(c: Counter): int {
    3 * (SHARD_COUNT - c.next) - if c.place.Outside? then 0 else if c.place.InQueue? then 1 else 2
  }

  /** How far Keys is from having taken its last lock. */
  ghost function ToGo<K>(s: State<K>): nat {
    LocksLeft(s.senders) + if s.counter.next < SHARD_COUNT then CountLeft(s.counter) else 0
  }

  function ToSend<K>(x: Sender<K>): nat { if x.Sending? then 2 * |x.todo| + 1 else 0 }

  function Work<K>(senders: seq<Sender<K>>): nat {
    if senders == [] then 0 else Work(senders[..|senders| - 1]) + ToSend(senders[|senders| - 1])
  }

  ghost function StateWork<K>(s: State<K>): nat {
    Work(s.senders) + |s.buf| + (if s.closed then 0 else 1) + if s.returned then 0 else 1
  }

  lemma {:induction false} ChangeSender<K>(senders: seq<Sender<K>>, i: nat, x: Sender<K>)
    requires i < |senders|
    ensures LocksLeft(senders[i := x]) == LocksLeft(senders) - ToLock(senders[i]) + ToLock(x)
    ensures Work(senders[i := x]) == Work(senders) - ToSend(senders[i]) + ToSend(x)
  {
    var n := |senders| - 1;
    if i == n {
      assert senders[i := x][..n] == senders[..n];
    } else {
      assert senders[i := x][..n] == senders[..n][i := x];
      ChangeSender(senders[..n], i, x);
    }
  }

  /** Fewer locks are still to be taken, or as many and less work is left. */
  ghost predicate Nearer<K>(r: State<K>, s: State<K>) {
    ToGo(r) < ToGo(s) || (ToGo(r) == ToGo(s) && StateWork(r) < StateWork(s))
  }

  ghost predicate AsNear<K>(r: State<K>, s: State<K>) {
    ToGo(r) == ToGo(s) && StateWork(r) == StateWork(s)
  }

  lemma SendWorks<K>(senders: seq<Sender<K>>, i: nat, k: K)
    requires i < |senders| && senders[i].Sending? && k in senders[i].todo
    ensures var r := senders[i := Sending(senders[i].todo - {k})];
            LocksLeft(r) == LocksLeft(senders) && Work(r) == Work(senders) - 2
  {
    ChangeSender(senders, i, Sending(senders[i].todo - {k}));
    assert |senders[i].todo - {k}| == |senders[i].todo| - 1;
  }

  /** A sender that comes closer to holding its lock. */
  lemma LockingWorks<K>(s: State<K>, r: State<K>, i: nat)
    requires r.counter == s.counter && i < |s.senders| == |r.senders| && r.senders == s.senders[i := r.senders[i]]
    requires ToLock(r.senders[i]) < ToLock(s.senders[i])
    ensures Nearer(r, s)
  {
    ChangeSender(s.senders, i, r.senders[i]);
  }

  lemma SenderWorks<K(!new)>(hash: K -> nat, s: State<K>, a: Action<K>)
    requires Sized(s) && Enabled(hash, s, a) && (a.Send? || a.HandOver? || a.Unlock?)
    ensures Nearer(After(hash, s, a), s)
  {
    if a.Unlock? {
      ChangeSender(s.senders, a.i, Finished);
    } else {
      SendWorks(s.senders, a.i, a.k);
    }
  }

  /** Every step of Keys brings its return nearer, and so does a client that lets a
      queued call in; no step of others puts it off. */
  lemma StepWorks<K(!new)>(hash: K -> nat, s: State<K>, a: Action<K>)
    requires Sized(s) && Enabled(hash, s, a)
    ensures Own(a) || (a.Client? && a.visit.Leave? && Queues(s, a.i)) ==> Nearer(After(hash, s, a), s)
    ensures Nearer(After(hash, s, a), s) || AsNear(After(hash, s, a), s)
  {
    if a.Ask? || (a.Client? && a.visit.Leave? && s.senders[a.i].Queued?) {
      LockingWorks(s, After(hash, s, a), a.i);
    } else if a.Send? || a.HandOver? || a.Unlock? {
      SenderWorks(hash, s, a);
    }
  }

  // ---- the result ----

  ghost predicate IsRun<K(!new)>(hash: K -> nat, states: seq<State<K>>, acts: seq<Action<K>>) {
    && |states| == |acts| + 1 && Init(hash, states[0])
    && forall j :: 0 <= j < |acts| ==>
      Sized(states[j]) && Enabled(hash, states[j], acts[j]) && states[j + 1] == After(hash, states[j], acts[j])
  }

  lemma InitOk<K(!new)>(hash: K -> nat, s: State<K>)
    requires Init(hash, s)
    ensures Inv(hash, s)
  {
    forall i | 0 <= i < SHARD_COUNT ensures SenderOk(hash, s, i) {}
    forall k ensures Sent(hash, s, k) {}
  }

  lemma {:induction false} RunKeepsInv<K(!new)>(hash: K -> nat, states: seq<State<K>>, acts: seq<Action<K>>, j: nat)
    requires IsRun(hash, states, acts) && j <= |acts|
    ensures Inv(hash, states[j])
  {
    if j == 0 {
      InitOk(hash, states[0]);
    } else {
      RunKeepsInv(hash, states, acts, j - 1);
      StepKeeps(hash, states[j - 1], acts[j - 1]);
    }
  }

  /** In every run that returns, each key occurs once, and the keys are those that
      each shard held when it was locked. */
  lemma KeysResult<K(!new)>(hash: K -> nat, states: seq<State<K>>, acts: seq<Action<K>>)
    requires IsRun(hash, states, acts) && states[|acts|].returned
    ensures var s := states[|acts|];
            Sized(s) && NoDup(s.result) && forall k :: k in s.result <==> k in s.taken[Index(hash, k)]
  {
    RunKeepsInv(hash, states, acts, |acts|);
    var s := states[|acts|];
    assert s.result + s.buf == s.result;
    forall k ensures k in s.result <==> k in s.taken[Index(hash, k)] {
      assert Sent(hash, s, k);
    }
  }

  // ---- the channel ----

  /** The keys sent so far, in the order of their sending. */
  ghost function SendOrder<K>(acts: seq<Action<K>>, n: nat): seq<K>
    requires n <= |acts|
  {
    if n == 0 then []
    else
      var a := acts[n - 1];
      SendOrder(acts, n - 1) + if a.Send? || a.HandOver? then [a.k] else []
  }

  /** First in, first out, and never more in the buffer than the count made room for. */
  lemma {:induction false} InOrder<K(!new)>(hash: K -> nat, states: seq<State<K>>, acts: seq<Action<K>>, n: nat)
    requires IsRun(hash, states, acts) && n <= |acts|
    ensures states[n].result + states[n].buf == SendOrder(acts, n) && |states[n].buf| <= states[n].cap
  {
    RunKeepsInv(hash, states, acts, n);
    if n > 0 {
      InOrder(hash, states, acts, n - 1);
      SentNext(hash, states[n - 1], acts[n - 1]);
    }
  }

  lemma SentNext<K(!new)>(hash: K -> nat, s: State<K>, a: Action<K>)
    requires Sized(s) && Enabled(hash, s, a)
    ensures var r := After(hash, s, a);
      r.result + r.buf == s.result + s.buf + if a.Send? || a.HandOver? then [a.k] else []
  {
    if a.Receive? {
      assert s.buf == [s.buf[0]] + s.buf[1..];
    }
  }

  /** Nobody else changes which keys there are. */
  ghost predicate Undisturbed<K>(states: seq<State<K>>, acts: seq<Action<K>>)
    requires |states| == |acts| + 1
  {
    forall j :: 0 <= j < |acts| ==> Sized(states[j]) && LeavesKeys(states[j], acts[j])
  }

  ghost predicate LeavesKeys<K>(s: State<K>, a: Action<K>)
    requires Sized(s)
  {
    a.Client? && a.visit.Leave? && a.i < SHARD_COUNT ==> a.visit.items == s.gates[a.i].items
  }

  /** The keys of the first `n` shards. */
  ghost function KeysOf<K>(gates: seq<Gate<set<K>>>, n: nat): set<K>
    requires n <= |gates|
  {
    if n == 0 then {} else KeysOf(gates, n - 1) + gates[n - 1].items
  }

  lemma {:induction false} SameKeys<K>(gates: seq<Gate<set<K>>>, others: seq<Gate<set<K>>>, n: nat)
    requires n <= |gates| == |others| && forall i :: 0 <= i < n ==> gates[i].items == others[i].items
    ensures KeysOf(gates, n) == KeysOf(others, n)
  {
    if n > 0 { SameKeys(gates, others, n - 1); }
  }

  lemma {:induction false} KeysOfHas<K>(gates: seq<Gate<set<K>>>, n: nat, i: nat)
    requires i < n <= |gates|
    ensures gates[i].items <= KeysOf(gates, n)
  {
    if i < n - 1 { KeysOfHas(gates, n - 1, i); }
  }

  lemma {:induction false} KeysOfHome<K(!new)>(hash: K -> nat, gates: seq<Gate<set<K>>>, n: nat)
    requires n <= |gates| && forall i, k :: 0 <= i < n && k in gates[i].items ==> Index(hash, k) == i
    ensures forall k :: k in KeysOf(gates, n) ==> Index(hash, k) < n
  {
    if n > 0 { KeysOfHome(hash, gates, n - 1); }
  }

  lemma {:induction false} DistinctKeys<K>(ks: seq<K>, all: set<K>)
    requires NoDup(ks) && forall j :: 0 <= j < |ks| ==> ks[j] in all
    ensures |ks| <= |all|
    decreases |ks|
  {
    if ks != [] {
      var last := |ks| - 1;
      DistinctKeys(ks[..last], all - {ks[last]});
    }
  }

  lemma DisjointSizes<K>(a: set<K>, b: set<K>)
    requires a !! b
    ensures |a + b| == |a| + |b|
  {}

  /** What has been counted, and what the senders have taken. */
  ghost predicate Counted<K>(s: State<K>)
    requires Sized(s) && s.counter.next <= SHARD_COUNT
  {
    && s.cap == |KeysOf(s.gates, s.counter.next)|
    && forall i :: 0 <= i < SHARD_COUNT ==> s.taken[i] <= s.gates[i].items
  }

  lemma SameItems<K(!new)>(hash: K -> nat, s: State<K>, a: Action<K>)
    requires Inv(hash, s) && Enabled(hash, s, a) && LeavesKeys(s, a)
    ensures var r := After(hash, s, a); forall i :: 0 <= i < SHARD_COUNT ==> r.gates[i].items == s.gates[i].items
  {}

  lemma AddCounts<K(!new)>(hash: K -> nat, s: State<K>)
    requires Inv(hash, s) && Enabled(hash, s, Add) && Counted(s)
    ensures Counted(After(hash, s, Add))
  {
    var n := s.counter.next;
    forall i, k | 0 <= i < n && k in s.gates[i].items ensures Index(hash, k) == i {
      assert SenderOk(hash, s, i);
    }
    assert SenderOk(hash, s, n);
    KeysOfHome(hash, s.gates, n);
    DisjointSizes(KeysOf(s.gates, n), s.gates[n].items);
  }

  lemma CountKept<K(!new)>(hash: K -> nat, s: State<K>, a: Action<K>)
    requires Inv(hash, s) && Enabled(hash, s, a) && LeavesKeys(s, a) && Counted(s)
    ensures Inv(hash, After(hash, s, a)) && Counted(After(hash, s, a))
  {
    StepKeeps(hash, s, a);
    if a.Add? {
      AddCounts(hash, s);
    } else {
      SameItems(hash, s, a);
      SameKeys(s.gates, After(hash, s, a).gates, s.counter.next);
    }
  }

  lemma {:induction false} RunCounts<K(!new)>(hash: K -> nat, states: seq<State<K>>, acts: seq<Action<K>>, n: nat)
    requires IsRun(hash, states, acts) && Undisturbed(states, acts) && n <= |acts|
    ensures Inv(hash, states[n]) && Counted(states[n])
  {
    RunKeepsInv(hash, states, acts, n);
    if n > 0 {
      RunCounts(hash, states, acts, n - 1);
      assert LeavesKeys(states[n - 1], acts[n - 1]);
      CountKept(hash, states[n - 1], acts[n - 1]);
    }
  }

  /** If nobody else changes which keys there are, the count is their number, and no sender
      ever has to wait for room while it holds a lock. */
  lemma SendsFindRoom<K(!new)>(
    hash: K -> nat, states: seq<State<K>>, acts: seq<Action<K>>, n: nat, i: nat, k: K)
    requires IsRun(hash, states, acts) && Undisturbed(states, acts) && n <= |acts|
    requires i < SHARD_COUNT && |states[n].senders| == SHARD_COUNT
    requires states[n].senders[i].Sending? && k in states[n].senders[i].todo
    ensures Sized(states[n]) && states[n].cap == |KeysOf(states[n].gates, SHARD_COUNT)|
    ensures Enabled(hash, states[n], Send(i, k))
  {
    var s := states[n];
    RunCounts(hash, states, acts, n);
    assert SenderOk(hash, s, i) && Sent(hash, s, k);
    var all, sent := KeysOf(s.gates, SHARD_COUNT), s.result + s.buf;
    KeysOfHas(s.gates, SHARD_COUNT, i);
    forall j | 0 <= j < |sent| ensures sent[j] in all - {k} {
      var x := sent[j];
      assert Sent(hash, s, x);
      KeysOfHas(s.gates, SHARD_COUNT, Index(hash, x));
    }
    DistinctKeys(sent, all - {k});
  }

  // ---- endless runs ----

  ghost predicate StepAt<K(!new)>(hash: K -> nat, run: nat -> State<K>, act: nat -> Action<K>, n: nat) {
    Sized(run(n)) && Enabled(hash, run(n), act(n)) && run(n + 1) == After(hash, run(n), act(n))
  }

  ghost predicate IsEndless<K(!new)>(hash: K -> nat, run: nat -> State<K>, act: nat -> Action<K>) {
    Init(hash, run(0)) && forall n: nat :: StepAt(hash, run, act, n)
  }

  lemma {:induction false} EndlessKeepsInv<K(!new)>(hash: K -> nat, run: nat -> State<K>, act: nat -> Action<K>, n: nat)
    requires IsEndless(hash, run, act)
    ensures Inv(hash, run(n))
  {
    if n == 0 {
      InitOk(hash, run(0));
    } else {
      EndlessKeepsInv(hash, run, act, n - 1);
      assert StepAt(hash, run, act, n - 1);
      StepKeeps(hash, run(n - 1), act(n - 1));
    }
  }

  lemma EndlessWorks<K(!new)>(hash: K -> nat, run: nat -> State<K>, act: nat -> Action<K>, n: nat)
    requires IsEndless(hash, run, act)
    ensures Own(act(n)) ==> Nearer(run(n + 1), run(n))
    ensures Nearer(run(n + 1), run(n)) || AsNear(run(n + 1), run(n))
  {
    assert StepAt(hash, run, act, n);
    StepWorks(hash, run(n), act(n));
  }

  /** From some moment on nothing comes nearer to the return any more. */
  lemma NearingEnds<K(!new)>(hash: K -> nat, run: nat -> State<K>, act: nat -> Action<K>) returns (end: nat)
    requires IsEndless(hash, run, act)
    ensures Settled(run, end)
  {
    var a, b := (n: nat) => ToGo(run(n)), (n: nat) => StateWork(run(n));
    forall n: nat ensures NoRise(a, b, n) {
      EndlessWorks(hash, run, act, n);
    }
    end := Settles(a, b, 0);
    forall n: nat | n >= end ensures !Nearer(run(n + 1), run(n)) {
      assert !Falls(a, b, n);
    }
  }

  /** In no schedule does Keys take steps for ever. */
  lemma StepsEnd<K(!new)>(hash: K -> nat, run: nat -> State<K>, act: nat -> Action<K>) returns (end: nat)
    requires IsEndless(hash, run, act)
    ensures forall n: nat :: n >= end ==> !Own(act(n))
  {
    end := NearingEnds(hash, run, act);
    forall n: nat | n >= end ensures !Own(act(n)) {
      EndlessWorks(hash, run, act, n);
    }
  }

  ghost predicate OwnPossible<K(!new)>(hash: K -> nat, s: State<K>) {
    Sized(s) && exists a :: Own(a) && Enabled(hash, s, a)
  }

  ghost predicate GoPossible<K(!new)>(hash: K -> nat, s: State<K>, i: nat) {
    Sized(s) && exists a :: GoesAt(a, i) && Enabled(hash, s, a)
  }

  /** If from some moment on a step of Keys is always possible, one is taken; and if from
      some moment on a client on a shard can always go on, one does. */
  ghost predicate Fair<K(!new)>(hash: K -> nat, run: nat -> State<K>, act: nat -> Action<K>) {
    && (forall n: nat :: AlwaysOwn(hash, run, n) ==> SomeOwn(act, n))
    && (forall n: nat, i: nat :: AlwaysGo(hash, run, i, n) ==> SomeGo(act, i, n))
  }

  ghost predicate AlwaysOwn<K(!new)>(hash: K -> nat, run: nat -> State<K>, n: nat) {
    forall m: nat :: m >= n ==> OwnPossible(hash, run(m))
  }

  ghost predicate SomeOwn<K>(act: nat -> Action<K>, n: nat) {
    exists m: nat :: m >= n && Own(act(m))
  }

  ghost predicate AlwaysGo<K(!new)>(hash: K -> nat, run: nat -> State<K>, i: nat, n: nat) {
    forall m: nat :: m >= n ==> GoPossible(hash, run(m), i)
  }

  ghost predicate SomeGo<K>(act: nat -> Action<K>, i: nat, n: nat) {
    exists m: nat :: m >= n && GoesAt(act(m), i)
  }

  ghost predicate Settled<K>(run: nat -> State<K>, n: nat) {
    forall k: nat :: k >= n ==> !Nearer(run(k + 1), run(k))
  }

  /** A queued call stays queued, nobody new gets ahead of it, and each client that
      goes on leaves fewer ahead. */
  lemma QueuedStep<K(!new)>(hash: K -> nat, run: nat -> State<K>, act: nat -> Action<K>, i: nat, n: nat)
    requires IsEndless(hash, run, act) && i < SHARD_COUNT && Sized(run(n)) && Queues(run(n), i)
    requires !Nearer(run(n + 1), run(n))
    ensures Sized(run(n + 1)) && Queues(run(n + 1), i)
    ensures Ahead(run(n + 1).gates[i]) <= Ahead(run(n).gates[i])
    ensures GoesAt(act(n), i) ==> Ahead(run(n + 1).gates[i]) < Ahead(run(n).gates[i])
  {
    var s := run(n);
    assert StepAt(hash, run, act, n);
    StepWorks(hash, s, act(n));
    EndlessKeepsInv(hash, run, act, n);
    assert SenderOk(hash, s, i);
    if act(n).Client? && act(n).i == i {
      AheadFalls(s.gates[i], act(n).visit);
    }
  }

  lemma {:induction false} QueuedStays<K(!new)>(
    hash: K -> nat, run: nat -> State<K>, act: nat -> Action<K>, i: nat, n: nat, m: nat)
    requires IsEndless(hash, run, act) && i < SHARD_COUNT && Sized(run(n)) && Queues(run(n), i) && n <= m
    requires Settled(run, n)
    ensures Sized(run(m)) && Queues(run(m), i) && Ahead(run(m).gates[i]) <= Ahead(run(n).gates[i])
    decreases m - n
  {
    if n < m {
      QueuedStays(hash, run, act, i, n, m - 1);
      QueuedStep(hash, run, act, i, m - 1);
    }
  }

  lemma QueuedCanGo<K(!new)>(hash: K -> nat, s: State<K>, i: nat)
    requires Inv(hash, s) && i < SHARD_COUNT && Queues(s, i)
    ensures GoPossible(hash, s, i)
  {
    assert SenderOk(hash, s, i);
    var v := SomeoneGoes(s.gates[i]);
    assert GoesAt(Client(i, v), i) && Enabled(hash, s, Client(i, v));
  }

  lemma QueuedAlwaysGo<K(!new)>(hash: K -> nat, run: nat -> State<K>, act: nat -> Action<K>, i: nat, n: nat)
    requires IsEndless(hash, run, act) && i < SHARD_COUNT && Sized(run(n)) && Queues(run(n), i)
    requires Settled(run, n)
    ensures AlwaysGo(hash, run, i, n)
  {
    forall m: nat | m >= n ensures GoPossible(hash, run(m), i) {
      QueuedStays(hash, run, act, i, n, m);
      EndlessKeepsInv(hash, run, act, m);
      QueuedCanGo(hash, run(m), i);
    }
  }

  lemma SettledLater<K>(run: nat -> State<K>, n: nat, m: nat)
    requires Settled(run, n) && n <= m
    ensures Settled(run, m)
  {}

  /** So under a fair schedule Keys is not queued for good. */
  lemma {:induction false} NotQueuedForGood<K(!new)>(
    hash: K -> nat, run: nat -> State<K>, act: nat -> Action<K>, i: nat, n: nat)
    requires IsEndless(hash, run, act) && Fair(hash, run, act)
    requires Settled(run, n)
    requires i < SHARD_COUNT && Sized(run(n))
    ensures !Queues(run(n), i)
    decreases Ahead(run(n).gates[i])
  {
    if Queues(run(n), i) {
      QueuedAlwaysGo(hash, run, act, i, n);
      assert SomeGo(act, i, n);
      var m: nat :| m >= n && GoesAt(act(m), i);
      QueuedStays(hash, run, act, i, n, m);
      QueuedStep(hash, run, act, i, m);
      SettledLater(run, n, m + 1);
      NotQueuedForGood(hash, run, act, i, m + 1);
    }
  }

  lemma OwnPossibleAt<K(!new)>(hash: K -> nat, run: nat -> State<K>, act: nat -> Action<K>, m: nat)
    requires IsEndless(hash, run, act) && Fair(hash, run, act) && Settled(run, m) && !run(m).returned
    ensures OwnPossible(hash, run(m))
  {
    EndlessKeepsInv(hash, run, act, m);
    var a := Progress(hash, run(m));
    if !Own(a) {
      NotQueuedForGood(hash, run, act, a.i, m);
    }
  }

  /** Under every fair schedule Keys returns, whatever other clients do. */
  lemma KeysReturns<K(!new)>(hash: K -> nat, run: nat -> State<K>, act: nat -> Action<K>)
    requires IsEndless(hash, run, act) && Fair(hash, run, act)
    ensures exists n :: run(n).returned
  {
    if forall n :: !run(n).returned {
      var end := NearingEnds(hash, run, act);
      forall m: nat | m >= end ensures OwnPossible(hash, run(m)) {
        SettledLater(run, end, m);
        OwnPossibleAt(hash, run, act, m);
      }
      assert AlwaysOwn(hash, run, end) && SomeOwn(act, end);
      var m: nat :| m >= end && Own(act(m));
      EndlessWorks(hash, run, act, m);
      assert false;
    }
  }
}
