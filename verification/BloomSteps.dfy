/** Many clients on one int64 filter: Add and Contains take the bitmap's mutex once for
    each bit, so other calls come in between. */
module BloomSteps {
  /** The hash functions, as positions: `k` of them for each element. */
  datatype Filter<!K> = Filter(pos: (K, nat) -> nat, k: nat) {
    /** The first `n` positions of `x`. */
    ghost function Positions(x: K, n: nat := k): set<nat> {
      set i | 0 <= i < n :: pos(x, i)
    }

    ghost predicate Present(x: K, bits: set<nat>) { Positions(x) <= bits }
  }

  datatype Call<K> =
    | Idle
    | Adding(x: K, next: nat)
    | Asking(x: K, next: nat, atCall: set<nat>, known: bool)

  /** An answer, with the bits at the call and at the return; `known`: when the call
      began some Add of `x` had returned. */
  datatype Answer<K> = Answer(x: K, yes: bool, atCall: set<nat>, atReturn: set<nat>, known: bool)

  datatype State<K(==)> = State(
    calls: seq<Call<K>>, bits: set<nat>, begun: set<K>, done: set<K>, answers: seq<Answer<K>>)

  datatype Action<K> = CallAdd(x: K) | CallContains(x: K) | Step

  predicate Enabled<K>(s: State<K>, t: nat, a: Action<K>) {
    t < |s.calls| && (a.Step? <==> !s.calls[t].Idle?)
  }

  function Now<K>(s: State<K>, t: nat, c: Call<K>): State<K>
    requires t < |s.calls|
  {
    s.(calls := s.calls[t := c])
  }

  function After<K>(f: Filter<K>, s: State<K>, t: nat, a: Action<K>): State<K>
    requires Enabled(s, t, a)
  {
    match a
    case CallAdd(x) => Now(s, t, Adding(x, 0)).(begun := s.begun + {x})
    case CallContains(x) => Now(s, t, Asking(x, 0, s.bits, x in s.done))
    case Step =>
      match s.calls[t]
      case Adding(x, n) =>
        if n < f.k then Now(s, t, Adding(x, n + 1)).(bits := s.bits + {f.pos(x, n)})
        else Now(s, t, Idle).(done := s.done + {x})
      case Asking(x, n, atCall, known) =>
        if n == f.k then Now(s, t, Idle).(answers := s.answers + [Answer(x, true, atCall, s.bits, known)])
        else if f.pos(x, n) in s.bits then Now(s, t, Asking(x, n + 1, atCall, known))
        else Now(s, t, Idle).(answers := s.answers + [Answer(x, false, atCall, s.bits, known)])
  }

  predicate Init<K>(s: State<K>) {
    && (forall t :: 0 <= t < |s.calls| ==> s.calls[t].Idle?)
    && s.bits == {} && s.begun == {} && s.done == {} && s.answers == []
  }

  // ---- what every step keeps ----

  ghost predicate CallOk<K>(f: Filter<K>, s: State<K>, c: Call<K>) {
    match c
    case Idle => true
    case Adding(x, n) => n <= f.k && x in s.begun && f.Positions(x, n) <= s.bits
    case Asking(x, n, atCall, known) =>
      && n <= f.k && f.Positions(x, n) <= s.bits && atCall <= s.bits
      && (known ==> f.Present(x, atCall))
  }

  /** The bits stand for nothing but additions that have begun. */
  ghost predicate Accounted<K>(f: Filter<K>, bits: set<nat>, begun: set<K>) {
    forall p :: p in bits ==> exists x :: x in begun && p in f.Positions(x)
  }

  /** An answer is the truth about the bits at the return if it is yes, at the call if
      it is no; and it is yes if an addition had returned before the call. */
  ghost predicate AnswerOk<K>(f: Filter<K>, a: Answer<K>) {
    && a.atCall <= a.atReturn
    && (a.yes ==> f.Present(a.x, a.atReturn))
    && (!a.yes ==> !f.Present(a.x, a.atCall))
    && (a.known ==> a.yes)
  }

  ghost predicate Inv<K>(f: Filter<K>, s: State<K>) {
    && (forall t :: 0 <= t < |s.calls| ==> CallOk(f, s, s.calls[t]))
    && (forall x :: x in s.done ==> f.Present(x, s.bits))
    && Accounted(f, s.bits, s.begun)
    && (forall j :: 0 <= j < |s.answers| ==> AnswerOk(f, s.answers[j]))
  }

  lemma OneMore<K>(f: Filter<K>, x: K, n: nat)
    ensures f.Positions(x, n + 1) == f.Positions(x, n) + {f.pos(x, n)}
  {}

  /** Bits only come, and other calls do not mind. */
  lemma OthersKept<K>(f: Filter<K>, s: State<K>, t: nat, c: Call<K>, r: State<K>)
    requires Inv(f, s) && t < |s.calls| && r.calls == s.calls[t := c] && CallOk(f, r, c)
    requires s.bits <= r.bits && s.begun <= r.begun
    ensures forall u :: 0 <= u < |r.calls| ==> CallOk(f, r, r.calls[u])
  {
    forall u | 0 <= u < |r.calls| && u != t ensures CallOk(f, r, r.calls[u]) {
      assert CallOk(f, s, s.calls[u]);
    }
  }

  lemma AddStepKeeps<K>(f: Filter<K>, s: State<K>, t: nat)
    requires Inv(f, s) && Enabled(s, t, Step) && s.calls[t].Adding?
    ensures Inv(f, After(f, s, t, Step))
  {
    var r, x, n := After(f, s, t, Step), s.calls[t].x, s.calls[t].next;
    assert CallOk(f, s, s.calls[t]);
    if n < f.k {
      OneMore(f, x, n);
      OthersKept(f, s, t, Adding(x, n + 1), r);
      assert f.pos(x, n) in f.Positions(x);
    } else {
      OthersKept(f, s, t, Idle, r);
    }
  }

  lemma AskStepKeeps<K>(f: Filter<K>, s: State<K>, t: nat)
    requires Inv(f, s) && Enabled(s, t, Step) && s.calls[t].Asking?
    ensures Inv(f, After(f, s, t, Step))
  {
    var r, x, n := After(f, s, t, Step), s.calls[t].x, s.calls[t].next;
    assert CallOk(f, s, s.calls[t]);
    if n < f.k && f.pos(x, n) in s.bits {
      OneMore(f, x, n);
      OthersKept(f, s, t, r.calls[t], r);
    } else {
      OthersKept(f, s, t, Idle, r);
      assert n < f.k ==> f.pos(x, n) in f.Positions(x);
    }
  }

  /** Every action of every client keeps all of it. */
  lemma StepKeeps<K>(f: Filter<K>, s: State<K>, t: nat, a: Action<K>)
    requires Inv(f, s) && Enabled(s, t, a)
    ensures Inv(f, After(f, s, t, a))
  {
    match a {
      case CallAdd(x) => OthersKept(f, s, t, Adding(x, 0), After(f, s, t, a));
      case CallContains(x) => OthersKept(f, s, t, Asking(x, 0, s.bits, x in s.done), After(f, s, t, a));
      case Step => if s.calls[t].Adding? { AddStepKeeps(f, s, t); } else { AskStepKeeps(f, s, t); }
    }
  }

  ghost predicate IsRun<K>(f: Filter<K>, states: seq<State<K>>, acts: seq<(nat, Action<K>)>) {
    && |states| == |acts| + 1 && Init(states[0])
    && forall j :: 0 <= j < |acts| ==>
      Enabled(states[j], acts[j].0, acts[j].1) && states[j + 1] == After(f, states[j], acts[j].0, acts[j].1)
  }

  lemma {:induction false} RunKeepsInv<K>(f: Filter<K>, states: seq<State<K>>, acts: seq<(nat, Action<K>)>, j: nat)
    requires IsRun(f, states, acts) && j <= |acts|
    ensures Inv(f, states[j])
  {
    if j > 0 {
      RunKeepsInv(f, states, acts, j - 1);
      StepKeeps(f, states[j - 1], acts[j - 1].0, acts[j - 1].1);
    }
  }

  /** In every interleaving: whatever finished adding before the call is found, an
      answer is the truth at some moment of its call, and a yes is explained by
      additions that had begun. */
  lemma RunAnswersAreTrue<K>(f: Filter<K>, states: seq<State<K>>, acts: seq<(nat, Action<K>)>, j: nat)
    requires IsRun(f, states, acts) && j <= |acts|
    ensures forall i :: 0 <= i < |states[j].answers| ==> AnswerOk(f, states[j].answers[i])
    ensures forall x :: x in states[j].done ==> f.Present(x, states[j].bits)
    ensures Accounted(f, states[j].bits, states[j].begun)
  {
    RunKeepsInv(f, states, acts, j);
  }

  // ---- one call ----

  /** Client `u` is inside one call of Contains from after moment `j` to `n`. */
  ghost predicate InCall<K>(states: seq<State<K>>, u: nat, j: nat, n: nat)
    requires j <= n < |states|
  {
    forall m :: j < m <= n ==> u < |states[m].calls| && states[m].calls[u].Asking?
  }

  /** That call keeps its element, and the bits it was called with. */
  lemma {:induction false} StaysAsking<K>(
    f: Filter<K>, states: seq<State<K>>, acts: seq<(nat, Action<K>)>, u: nat, x: K, j: nat, n: nat)
    requires IsRun(f, states, acts) && j < n <= |acts| && acts[j] == (u, CallContains(x))
    requires InCall(states, u, j, n)
    ensures u < |states[n].calls| && states[n].calls[u].Asking?
    ensures states[n].calls[u].x == x && states[n].calls[u].atCall == states[j].bits
    decreases n
  {
    assert states[n] == After(f, states[n - 1], acts[n - 1].0, acts[n - 1].1);
    if n > j + 1 {
      StaysAsking(f, states, acts, u, x, j, n - 1);
    }
  }

  /** What Contains answers: a yes is true of the bits at the return, a no of those at the
      call. */
  lemma ContainsExact<K>(
    f: Filter<K>, states: seq<State<K>>, acts: seq<(nat, Action<K>)>, u: nat, x: K, j: nat, n: nat)
    requires IsRun(f, states, acts) && j < n < |acts| && acts[j] == (u, CallContains(x))
    requires InCall(states, u, j, n) && acts[n].0 == u && states[n + 1].calls[u].Idle?
    ensures |states[n + 1].answers| == |states[n].answers| + 1
    ensures var a := states[n + 1].answers[|states[n].answers|];
            a.x == x && if a.yes then f.Present(x, states[n].bits) else !f.Present(x, states[j].bits)
  {
    StaysAsking(f, states, acts, u, x, j, n);
    RunKeepsInv(f, states, acts, n);
    var s := states[n];
    assert CallOk(f, s, s.calls[u]);
    var c := s.calls[u];
    assert c.next < f.k ==> f.pos(x, c.next) in f.Positions(x);
  }

  lemma {:induction false} BitsGrow<K>(
    f: Filter<K>, states: seq<State<K>>, acts: seq<(nat, Action<K>)>, i: nat, j: nat)
    requires IsRun(f, states, acts) && i <= j <= |acts|
    ensures states[i].bits <= states[j].bits
    decreases j
  {
    if i < j {
      BitsGrow(f, states, acts, i, j - 1);
    }
  }

  /** Whatever one client has added before another one asks is found, whatever happens in
      between and meanwhile. */
  lemma AddedIsFound<K>(
    f: Filter<K>, states: seq<State<K>>, acts: seq<(nat, Action<K>)>, t: nat, i: nat, u: nat, x: K, j: nat, n: nat)
    requires IsRun(f, states, acts) && i < j < n < |acts|
    requires acts[i] == (t, Step) && states[i].calls[t].Adding? && states[i].calls[t].x == x
    requires states[i + 1].calls[t].Idle?
    requires acts[j] == (u, CallContains(x)) && InCall(states, u, j, n)
    requires acts[n].0 == u && states[n + 1].calls[u].Idle?
    ensures |states[n + 1].answers| == |states[n].answers| + 1 && states[n + 1].answers[|states[n].answers|].yes
  {
    RunKeepsInv(f, states, acts, i);
    assert CallOk(f, states[i], states[i].calls[t]);
    assert f.Present(x, states[i].bits);
    BitsGrow(f, states, acts, i, j);
    ContainsExact(f, states, acts, u, x, j, n);
  }
}
