/** The stop manager: two flags, each with a lock and a channel that is closed when
    the flag is set, and a third channel closed when stopping has completed. Any
    number of threads call TriggerStop, DoStop and WaitStopped, again and again, in
    every interleaving of their loads, stores, locks and closes. */
module Stopper {
  import opened Wrappers

  /** Where a thread is. The first letters say in which call. */
  datatype Pc =
    | Idle
    // TriggerStop: first check; lock; second check; close; store; unlock
    | TCheck | TLock | TRecheck | TClose | TStore | TUnlock
    // DoStop: first check; lock; second check; close; store; unlock
    | DCheck | DLock | DRecheck | DClose | DStore | DUnlock
    // DoStop: run f in a goroutine; wait for it or for the timeout; close stoppedChan
    | DRun | DWait(fDone: bool) | DFinish
    | WWait

  datatype State = State(
    pcs: seq<Pc>,
    triggerLock: Option<nat>, triggered: bool, triggerCloses: nat,
    stoppingLock: Option<nat>, stopping: bool, stoppingCloses: nat,
    stoppedCloses: nat,
    passed: nat,    // calls of DoStop that got past the first check
    runs: nat,      // how often some f was started
    outcomes: nat)  // how often a caller saw its f finish or time out

  datatype Action =
    | CallTrigger | CallStop | CallWait
    | Step          // the next instruction of the thread
    | FReturns      // its f returns
    | Timeout       // its waiting time is over

  /** Closing a closed channel panics, which ends the program. */
  predicate Panicked(s: State) {
    s.triggerCloses > 1 || s.stoppingCloses > 1 || s.stoppedCloses > 1
  }

  predicate Enabled(s: State, t: nat, a: Action) {
    && t < |s.pcs| && !Panicked(s)
    && match a
       case CallTrigger => s.pcs[t].Idle?
       case CallStop => s.pcs[t].Idle?
       case CallWait => s.pcs[t].Idle?
       case FReturns => s.pcs[t] == DWait(false)
       case Timeout => s.pcs[t].DWait?
       case Step =>
         match s.pcs[t]
         case Idle => false
         case TLock => s.triggerLock == None
         case DLock => s.stoppingLock == None
         case DWait(fDone) => fDone
         case WWait => s.stoppedCloses > 0
         case _ => true
  }

  function At(s: State, t: nat, pc: Pc): State
    requires t < |s.pcs|
  {
    s.(pcs := s.pcs[t := pc])
  }

  predicate InTrigger(pc: Pc) { pc.TCheck? || pc.TLock? || HoldsTrigger(pc) }

  predicate HoldsTrigger(pc: Pc) { pc.TRecheck? || pc.TClose? || pc.TStore? || pc.TUnlock? }

  predicate InStop(pc: Pc) { pc.DCheck? || Inside(pc) }

  predicate HoldsStopping(pc: Pc) { pc.DRecheck? || pc.DClose? || pc.DStore? || pc.DUnlock? }

  /** Past the first check of DoStop and not yet done. */
  predicate Inside(pc: Pc) {
    pc.DLock? || HoldsStopping(pc) || pc.DRun? || pc.DWait? || pc.DFinish?
  }

  function TriggerStep(s: State, t: nat): State
    requires t < |s.pcs| && InTrigger(s.pcs[t])
  {
    match s.pcs[t]
    case TCheck => At(s, t, if s.triggered then Idle else TLock)
    case TLock => At(s, t, TRecheck).(triggerLock := Some(t))
    case TRecheck => At(s, t, if s.triggered then TUnlock else TClose)
    case TClose => At(s, t, TStore).(triggerCloses := s.triggerCloses + 1)
    case TStore => At(s, t, TUnlock).(triggered := true)
    case TUnlock => At(s, t, Idle).(triggerLock := None)
  }

  function StopStep(s: State, t: nat): State
    requires t < |s.pcs| && InStop(s.pcs[t])
  {
    match s.pcs[t]
    case DCheck => if s.stopping then At(s, t, Idle) else At(s, t, DLock).(passed := s.passed + 1)
    case DLock => At(s, t, DRecheck).(stoppingLock := Some(t))
    // The return under the second check leaves only the inner function.
    case DRecheck => At(s, t, if s.stopping then DUnlock else DClose)
    case DClose => At(s, t, DStore).(stoppingCloses := s.stoppingCloses + 1)
    case DStore => At(s, t, DUnlock).(stopping := true)
    case DUnlock => At(s, t, DRun).(stoppingLock := None)
    case DRun => At(s, t, DWait(false)).(runs := s.runs + 1)
    case DWait(_) => At(s, t, DFinish).(outcomes := s.outcomes + 1)
    case DFinish => At(s, t, Idle).(stoppedCloses := s.stoppedCloses + 1)
  }

  function After(s: State, t: nat, a: Action): State
    requires Enabled(s, t, a)
  {
    match a
    case CallTrigger => At(s, t, TCheck)
    case CallStop => At(s, t, DCheck)
    case CallWait => At(s, t, WWait)
    case FReturns => At(s, t, DWait(true))
    case Timeout => StopStep(s, t)
    case Step =>
      if InTrigger(s.pcs[t]) then TriggerStep(s, t)
      else if InStop(s.pcs[t]) then StopStep(s, t)
      else At(s, t, Idle)
  }

  predicate Init(s: State) {
    && (forall t :: 0 <= t < |s.pcs| ==> s.pcs[t] == Idle)
    && s == State(s.pcs, None, false, 0, None, false, 0, 0, 0, 0, 0)
  }

  // ---- what every step keeps ----

  /** The trigger: flag, lock and channel. */
  ghost predicate TriggerOk(s: State, t: nat)
    requires t < |s.pcs|
  {
    var pc := s.pcs[t];
    && (HoldsTrigger(pc) <==> s.triggerLock == Some(t))
    && (pc.TClose? ==> s.triggerCloses == 0)
    && (pc.TStore? ==> s.triggerCloses == 1)
    && (pc.TUnlock? ==> s.triggered)
  }

  /** The stopping announcement: flag, lock and channel. */
  ghost predicate StoppingOk(s: State, t: nat)
    requires t < |s.pcs|
  {
    var pc := s.pcs[t];
    && (HoldsStopping(pc) <==> s.stoppingLock == Some(t))
    && (pc.DClose? ==> s.stoppingCloses == 0)
    && (pc.DStore? ==> s.stoppingCloses == 1)
    && (pc.DUnlock? || pc.DRun? || pc.DWait? || pc.DFinish? ==> s.stopping)
  }

  /** If the channel is closed but the flag is down, its closer is about to store. */
  ghost predicate TriggerInv(s: State) {
    && (forall t :: 0 <= t < |s.pcs| ==> TriggerOk(s, t))
    && (s.triggerLock.Some? ==> s.triggerLock.value < |s.pcs|)
    && s.triggerCloses <= 1
    && (s.triggered ==> s.triggerCloses == 1)
    && (s.triggerCloses == 1 && !s.triggered ==>
          s.triggerLock.Some? && s.pcs[s.triggerLock.value].TStore?)
  }

  ghost predicate StoppingInv(s: State) {
    && (forall t :: 0 <= t < |s.pcs| ==> StoppingOk(s, t))
    && (s.stoppingLock.Some? ==> s.stoppingLock.value < |s.pcs|)
    && s.stoppingCloses <= 1
    && (s.stopping ==> s.stoppingCloses == 1)
    && (s.stoppingCloses == 1 && !s.stopping ==>
          s.stoppingLock.Some? && s.pcs[s.stoppingLock.value].DStore?)
    && (s.stoppedCloses > 0 ==> s.stopping)
  }

  function Insiders(pcs: seq<Pc>): nat {
    if pcs == [] then 0 else Insiders(pcs[..|pcs| - 1]) + if Inside(pcs[|pcs| - 1]) then 1 else 0
  }

  function AtFinish(pcs: seq<Pc>): nat {
    if pcs == [] then 0 else AtFinish(pcs[..|pcs| - 1]) + if pcs[|pcs| - 1].DFinish? then 1 else 0
  }

  /** Every caller past the first check is still inside or has closed stoppedChan,
      and it closes only after its f finished or timed out. */
  ghost predicate CountInv(s: State) {
    && s.passed == Insiders(s.pcs) + s.stoppedCloses
    && s.outcomes == AtFinish(s.pcs) + s.stoppedCloses
  }

  ghost predicate Inv(s: State) { TriggerInv(s) && StoppingInv(s) && CountInv(s) }

  lemma {:induction false} ChangePc(pcs: seq<Pc>, t: nat, pc: Pc)
    requires t < |pcs|
    ensures Insiders(pcs[t := pc]) == Insiders(pcs) - (if Inside(pcs[t]) then 1 else 0) + if Inside(pc) then 1 else 0
    ensures AtFinish(pcs[t := pc]) == AtFinish(pcs) - (if pcs[t].DFinish? then 1 else 0) + if pc.DFinish? then 1 else 0
  {
    var n := |pcs| - 1;
    if t == n {
      assert pcs[t := pc][..n] == pcs[..n];
    } else {
      assert pcs[t := pc][..n] == pcs[..n][t := pc];
      ChangePc(pcs[..n], t, pc);
    }
  }

  /** A step outside TriggerStop leaves the trigger alone. */
  lemma TriggerFrame(s: State, t: nat, r: State)
    requires TriggerInv(s) && t < |s.pcs| && |r.pcs| == |s.pcs| && r.pcs == s.pcs[t := r.pcs[t]]
    requires !HoldsTrigger(s.pcs[t]) && !HoldsTrigger(r.pcs[t])
    requires r.triggerLock == s.triggerLock && r.triggered == s.triggered && r.triggerCloses == s.triggerCloses
    ensures TriggerInv(r)
  {
    assert TriggerOk(s, t);
    forall u | 0 <= u < |r.pcs| ensures TriggerOk(r, u) {
      assert TriggerOk(s, u);
    }
  }

  lemma TriggerStepKeeps(s: State, t: nat)
    requires TriggerInv(s) && t < |s.pcs| && InTrigger(s.pcs[t]) && (s.pcs[t].TLock? ==> s.triggerLock == None)
    ensures TriggerInv(TriggerStep(s, t))
  {
    var r := TriggerStep(s, t);
    assert TriggerOk(s, t);
    forall u | 0 <= u < |r.pcs| ensures TriggerOk(r, u) {
      assert TriggerOk(s, u);
    }
  }

  /** A thread that starts or ends a call, or whose f has returned. */
  lemma TriggerAt(s: State, t: nat, pc: Pc)
    requires TriggerInv(s) && t < |s.pcs| && !HoldsTrigger(s.pcs[t]) && !HoldsTrigger(pc)
    ensures TriggerInv(At(s, t, pc))
  {
    TriggerFrame(s, t, At(s, t, pc));
  }

  lemma TriggerInStop(s: State, t: nat)
    requires TriggerInv(s) && t < |s.pcs| && InStop(s.pcs[t])
    ensures TriggerInv(StopStep(s, t))
  {
    var r := StopStepFrame(s, t);
    TriggerFrame(s, t, r);
  }

  /** DoStop does not touch the trigger. */
  lemma StopStepFrame(s: State, t: nat) returns (r: State)
    requires t < |s.pcs| && InStop(s.pcs[t])
    ensures r == StopStep(s, t) && |r.pcs| == |s.pcs| && r.pcs == s.pcs[t := r.pcs[t]]
    ensures !HoldsTrigger(s.pcs[t]) && !HoldsTrigger(r.pcs[t])
    ensures r.triggerLock == s.triggerLock && r.triggered == s.triggered && r.triggerCloses == s.triggerCloses
  {
    r := StopStep(s, t);
  }

  /** TriggerStop touches only the trigger. */
  lemma TriggerStepFrame(s: State, t: nat) returns (r: State)
    requires t < |s.pcs| && InTrigger(s.pcs[t])
    ensures r == TriggerStep(s, t) && |r.pcs| == |s.pcs| && r.pcs == s.pcs[t := r.pcs[t]]
    ensures !InStop(s.pcs[t]) && !InStop(r.pcs[t])
    ensures r.stoppingLock == s.stoppingLock && r.stopping == s.stopping && r.stoppingCloses == s.stoppingCloses
    ensures r.stoppedCloses == s.stoppedCloses && r.passed == s.passed && r.outcomes == s.outcomes
  {
    r := TriggerStep(s, t);
  }

  lemma TriggerStepped(s: State, t: nat)
    requires TriggerInv(s) && Enabled(s, t, Step)
    ensures TriggerInv(After(s, t, Step))
  {
    if InTrigger(s.pcs[t]) {
      TriggerStepKeeps(s, t);
    } else if InStop(s.pcs[t]) {
      TriggerInStop(s, t);
    } else {
      TriggerAt(s, t, Idle);
    }
  }

  lemma TriggerKept(s: State, t: nat, a: Action)
    requires TriggerInv(s) && Enabled(s, t, a)
    ensures TriggerInv(After(s, t, a))
  {
    match a {
      case CallTrigger => TriggerAt(s, t, TCheck);
      case CallStop => TriggerAt(s, t, DCheck);
      case CallWait => TriggerAt(s, t, WWait);
      case FReturns => TriggerAt(s, t, DWait(true));
      case Timeout => TriggerInStop(s, t);
      case Step => TriggerStepped(s, t);
    }
  }

  /** A step that holds no stopping lock and comes to hold none leaves the
      announcement alone, unless it goes on without the flag. */
  lemma StoppingFrame(s: State, t: nat, r: State)
    requires StoppingInv(s) && t < |s.pcs| && |r.pcs| == |s.pcs| && r.pcs == s.pcs[t := r.pcs[t]]
    requires !HoldsStopping(s.pcs[t]) && !HoldsStopping(r.pcs[t])
    requires r.pcs[t].DRun? || r.pcs[t].DWait? || r.pcs[t].DFinish? ==> s.stopping
    requires r.stoppingLock == s.stoppingLock && r.stopping == s.stopping && r.stoppingCloses == s.stoppingCloses
    requires r.stoppedCloses > s.stoppedCloses ==> s.stopping
    ensures StoppingInv(r)
  {
    assert StoppingOk(s, t);
    forall u | 0 <= u < |r.pcs| ensures StoppingOk(r, u) {
      assert StoppingOk(s, u);
    }
  }

  lemma StoppingStepKeeps(s: State, t: nat)
    requires StoppingInv(s) && t < |s.pcs| && (HoldsStopping(s.pcs[t]) || (s.pcs[t].DLock? && s.stoppingLock == None))
    ensures StoppingInv(StopStep(s, t))
  {
    var r := StopStep(s, t);
    assert StoppingOk(s, t);
    forall u | 0 <= u < |r.pcs| ensures StoppingOk(r, u) {
      assert StoppingOk(s, u);
    }
  }

  lemma StoppingByStop(s: State, t: nat)
    requires StoppingInv(s) && t < |s.pcs| && InStop(s.pcs[t]) && (s.pcs[t].DLock? ==> s.stoppingLock == None)
    ensures StoppingInv(StopStep(s, t))
  {
    if HoldsStopping(s.pcs[t]) || s.pcs[t].DLock? {
      StoppingStepKeeps(s, t);
    } else {
      assert StoppingOk(s, t);
      StoppingFrame(s, t, StopStep(s, t));
    }
  }

  /** A thread that starts or ends a call, or whose f has returned. */
  lemma StoppingAt(s: State, t: nat, pc: Pc)
    requires StoppingInv(s) && t < |s.pcs| && !HoldsStopping(s.pcs[t])
    requires !Inside(pc) || (s.pcs[t].DWait? && pc.DWait?)
    ensures StoppingInv(At(s, t, pc))
  {
    assert StoppingOk(s, t);
    StoppingFrame(s, t, At(s, t, pc));
  }

  lemma StoppingInTrigger(s: State, t: nat)
    requires StoppingInv(s) && t < |s.pcs| && InTrigger(s.pcs[t])
    ensures StoppingInv(TriggerStep(s, t))
  {
    assert StoppingOk(s, t);
    var r := TriggerStepFrame(s, t);
    StoppingFrame(s, t, r);
  }

  lemma StoppingStepped(s: State, t: nat)
    requires StoppingInv(s) && Enabled(s, t, Step)
    ensures StoppingInv(After(s, t, Step))
  {
    if InTrigger(s.pcs[t]) {
      StoppingInTrigger(s, t);
    } else if InStop(s.pcs[t]) {
      StoppingByStop(s, t);
    } else {
      StoppingAt(s, t, Idle);
    }
  }

  lemma StoppingKept(s: State, t: nat, a: Action)
    requires StoppingInv(s) && Enabled(s, t, a)
    ensures StoppingInv(After(s, t, a))
  {
    match a {
      case CallTrigger => StoppingAt(s, t, TCheck);
      case CallStop => StoppingAt(s, t, DCheck);
      case CallWait => StoppingAt(s, t, WWait);
      case FReturns => StoppingAt(s, t, DWait(true));
      case Timeout => StoppingByStop(s, t);
      case Step => StoppingStepped(s, t);
    }
  }

  function One(b: bool): int { if b then 1 else 0 }

  /** The bookkeeping of one thread's step is enough. */
  lemma CountChange(s: State, t: nat, r: State)
    requires CountInv(s) && t < |s.pcs| && |r.pcs| == |s.pcs| && r.pcs == s.pcs[t := r.pcs[t]]
    requires r.passed - s.passed == One(Inside(r.pcs[t])) - One(Inside(s.pcs[t])) + r.stoppedCloses - s.stoppedCloses
    requires r.outcomes - s.outcomes ==
      One(r.pcs[t].DFinish?) - One(s.pcs[t].DFinish?) + r.stoppedCloses - s.stoppedCloses
    ensures CountInv(r)
  {
    ChangePc(s.pcs, t, r.pcs[t]);
  }

  lemma CountAt(s: State, t: nat, pc: Pc)
    requires CountInv(s) && t < |s.pcs| && Inside(pc) == Inside(s.pcs[t]) && pc.DFinish? == s.pcs[t].DFinish?
    ensures CountInv(At(s, t, pc))
  {
    CountChange(s, t, At(s, t, pc));
  }

  lemma CountTrigger(s: State, t: nat)
    requires CountInv(s) && t < |s.pcs| && InTrigger(s.pcs[t])
    ensures CountInv(TriggerStep(s, t))
  {
    var r := TriggerStepFrame(s, t);
    CountChange(s, t, r);
  }

  lemma CountStop(s: State, t: nat)
    requires CountInv(s) && t < |s.pcs| && InStop(s.pcs[t])
    ensures CountInv(StopStep(s, t))
  {
    var r := StopStepCounts(s, t);
    CountChange(s, t, r);
  }

  lemma StopStepCounts(s: State, t: nat) returns (r: State)
    requires t < |s.pcs| && InStop(s.pcs[t])
    ensures r == StopStep(s, t) && |r.pcs| == |s.pcs| && r.pcs == s.pcs[t := r.pcs[t]]
    ensures r.passed - s.passed == One(Inside(r.pcs[t])) - One(Inside(s.pcs[t])) + r.stoppedCloses - s.stoppedCloses
    ensures r.outcomes - s.outcomes ==
      One(r.pcs[t].DFinish?) - One(s.pcs[t].DFinish?) + r.stoppedCloses - s.stoppedCloses
  {
    r := StopStep(s, t);
  }

  lemma CountStepped(s: State, t: nat)
    requires CountInv(s) && Enabled(s, t, Step)
    ensures CountInv(After(s, t, Step))
  {
    if InTrigger(s.pcs[t]) {
      CountTrigger(s, t);
    } else if InStop(s.pcs[t]) {
      CountStop(s, t);
    } else {
      CountAt(s, t, Idle);
    }
  }

  lemma CountKept(s: State, t: nat, a: Action)
    requires CountInv(s) && Enabled(s, t, a)
    ensures CountInv(After(s, t, a))
  {
    match a {
      case CallTrigger => CountAt(s, t, TCheck);
      case CallStop => CountAt(s, t, DCheck);
      case CallWait => CountAt(s, t, WWait);
      case FReturns => CountAt(s, t, DWait(true));
      case Timeout => CountStop(s, t);
      case Step => CountStepped(s, t);
    }
  }

  /** Every action of every thread keeps all of it. */
  lemma StepKeeps(s: State, t: nat, a: Action)
    requires Inv(s) && Enabled(s, t, a)
    ensures Inv(After(s, t, a))
  {
    TriggerKept(s, t, a);
    StoppingKept(s, t, a);
    CountKept(s, t, a);
  }

  // ---- what the calls promise ----

  /** A TriggerStop that returns leaves the trigger closed, whoever closed it. */
  lemma TriggerReturns(s: State, t: nat)
    requires Inv(s) && Enabled(s, t, Step) && InTrigger(s.pcs[t]) && After(s, t, Step).pcs[t] == Idle
    ensures After(s, t, Step).triggerCloses == 1 && After(s, t, Step).triggered
  {
    assert TriggerOk(s, t);
  }

  lemma {:induction false} FinishInside(pcs: seq<Pc>)
    ensures AtFinish(pcs) <= Insiders(pcs)
  {
    if pcs != [] { FinishInside(pcs[..|pcs| - 1]); }
  }

  lemma {:induction false} NoneInside(pcs: seq<Pc>)
    ensures (forall t :: 0 <= t < |pcs| ==> !Inside(pcs[t])) ==> Insiders(pcs) == 0
  {
    if pcs != [] { NoneInside(pcs[..|pcs| - 1]); }
  }

  /** Once no call of DoStop is under way, or the program has panicked, the panic has
      happened exactly if two callers got past the first check. */
  lemma PanicExact(s: State)
    requires Inv(s)
    requires Panicked(s) || forall t :: 0 <= t < |s.pcs| ==> !Inside(s.pcs[t])
    ensures Panicked(s) <==> s.passed >= 2
  {
    NoneInside(s.pcs);
  }

  /** A thread inside a call can go on, or the holder of the lock it waits for can,
      except in WaitStopped before the close. */
  lemma GoesOn(s: State, t: nat) returns (u: nat, a: Action)
    requires Inv(s) && !Panicked(s) && t < |s.pcs| && !s.pcs[t].Idle?
    ensures (s.pcs[t].WWait? && s.stoppedCloses == 0) || (Enabled(s, u, a) && (a.Step? || a.Timeout?))
    ensures u == t || (s.pcs[t].TLock? && s.triggerLock == Some(u)) || (s.pcs[t].DLock? && s.stoppingLock == Some(u))
  {
    u, a := t, Step;
    if s.pcs[t].TLock? && s.triggerLock != None {
      u := s.triggerLock.value;
      assert TriggerOk(s, u);
    } else if s.pcs[t].DLock? && s.stoppingLock != None {
      u := s.stoppingLock.value;
      assert StoppingOk(s, u);
    } else if s.pcs[t].DWait? {
      a := Timeout;
    }
  }

  // ---- runs ----

  ghost predicate IsRun(states: seq<State>, acts: seq<(nat, Action)>) {
    && |states| == |acts| + 1 && Init(states[0])
    && forall j :: 0 <= j < |acts| ==>
      Enabled(states[j], acts[j].0, acts[j].1) && states[j + 1] == After(states[j], acts[j].0, acts[j].1)
  }

  lemma InitOk(s: State)
    requires Init(s)
    ensures Inv(s)
  {
    NoneInside(s.pcs);
    FinishInside(s.pcs);
  }

  lemma {:induction false} RunKeepsInv(states: seq<State>, acts: seq<(nat, Action)>, j: nat)
    requires IsRun(states, acts) && j <= |acts|
    ensures Inv(states[j])
  {
    if j == 0 {
      InitOk(states[0]);
    } else {
      RunKeepsInv(states, acts, j - 1);
      StepKeeps(states[j - 1], acts[j - 1].0, acts[j - 1].1);
    }
  }

  /** What holds at every moment of every run: the trigger and the announcement are
      closed at most once and a flag that is up has its channel closed; a closed
      stoppedChan, and so a WaitStopped that returned, means that stopping was announced
      and that for each close some caller's f finished or timed out; and nothing panics
      if at most one caller got past the first check. */
  lemma RunIsSafe(states: seq<State>, acts: seq<(nat, Action)>, j: nat)
    requires IsRun(states, acts) && j <= |acts|
    ensures var s := states[j];
      && s.triggerCloses <= 1 && s.stoppingCloses <= 1
      && (s.triggered ==> s.triggerCloses == 1) && (s.stopping ==> s.stoppingCloses == 1)
      && (s.stoppedCloses > 0 ==> s.stopping && s.outcomes >= s.stoppedCloses)
      && (s.passed <= 1 ==> !Panicked(s))
  {
    RunKeepsInv(states, acts, j);
  }

  // ---- what the closes of stoppedChan come from ----

  /** The waiting of a caller in DoStop is ended: its f returns, or its time is over. */
  predicate EndsWait(s: State, t: nat, a: Action) {
    t < |s.pcs| && s.pcs[t] == DWait(false) && (a.FReturns? || a.Timeout?)
  }

  /** The thread closes stoppedChan. */
  predicate Closes(s: State, t: nat, a: Action) { t < |s.pcs| && s.pcs[t].DFinish? && a.Step? }

  ghost predicate EndsAt(states: seq<State>, acts: seq<(nat, Action)>, m: nat)
    requires m < |acts| < |states|
  {
    EndsWait(states[m], acts[m].0, acts[m].1)
  }

  ghost predicate ClosesAt(states: seq<State>, acts: seq<(nat, Action)>, m: nat)
    requires m < |acts| < |states|
  {
    Closes(states[m], acts[m].0, acts[m].1)
  }

  /** In how many calls of DoStop the waiting has been ended before moment `n`. */
  ghost function Ended(states: seq<State>, acts: seq<(nat, Action)>, n: nat): nat
    requires n <= |acts| < |states|
  {
    if n == 0 then 0 else Ended(states, acts, n - 1) + if EndsAt(states, acts, n - 1) then 1 else 0
  }

  /** A caller whose waiting has been ended and who has not closed stoppedChan yet. */
  predicate Past(pc: Pc) { pc == DWait(true) || pc.DFinish? }

  function PastWait(pcs: seq<Pc>): nat {
    if pcs == [] then 0 else PastWait(pcs[..|pcs| - 1]) + if Past(pcs[|pcs| - 1]) then 1 else 0
  }

  lemma {:induction false} ChangePast(pcs: seq<Pc>, t: nat, pc: Pc)
    requires t < |pcs|
    ensures PastWait(pcs[t := pc]) == PastWait(pcs) - One(Past(pcs[t])) + One(Past(pc))
  {
    var n := |pcs| - 1;
    if t == n {
      assert pcs[t := pc][..n] == pcs[..n];
    } else {
      assert pcs[t := pc][..n] == pcs[..n][t := pc];
      ChangePast(pcs[..n], t, pc);
    }
  }

  lemma {:induction false} NonePast(pcs: seq<Pc>)
    requires forall t :: 0 <= t < |pcs| ==> pcs[t].Idle?
    ensures PastWait(pcs) == 0
  {
    if pcs != [] { NonePast(pcs[..|pcs| - 1]); }
  }

  /** One step of one thread: who comes past the waiting and who closes. */
  lemma PastStep(s: State, t: nat, a: Action) returns (r: State)
    requires Enabled(s, t, a)
    ensures r == After(s, t, a) && |r.pcs| == |s.pcs| && r.pcs == s.pcs[t := r.pcs[t]]
    ensures One(Past(r.pcs[t])) - One(Past(s.pcs[t])) == One(EndsWait(s, t, a)) - One(Closes(s, t, a))
    ensures r.stoppedCloses == s.stoppedCloses + One(Closes(s, t, a))
  {
    r := After(s, t, a);
    if a.Step? && InTrigger(s.pcs[t]) {
      var q := TriggerStepFrame(s, t);
    } else if a.Step? && InStop(s.pcs[t]) {
      var q := PastStopStep(s, t);
    }
  }

  lemma PastStopStep(s: State, t: nat) returns (r: State)
    requires Enabled(s, t, Step) && InStop(s.pcs[t])
    ensures r == StopStep(s, t) && |r.pcs| == |s.pcs| && r.pcs == s.pcs[t := r.pcs[t]]
    ensures One(Past(r.pcs[t])) - One(Past(s.pcs[t])) == -One(Closes(s, t, Step))
    ensures r.stoppedCloses == s.stoppedCloses + One(Closes(s, t, Step))
  {
    r := StopStep(s, t);
  }

  lemma {:induction false} EndedExact(states: seq<State>, acts: seq<(nat, Action)>, n: nat)
    requires IsRun(states, acts) && n <= |acts|
    ensures Ended(states, acts, n) == PastWait(states[n].pcs) + states[n].stoppedCloses
  {
    if n == 0 {
      NonePast(states[0].pcs);
    } else {
      EndedExact(states, acts, n - 1);
      var s, t, a := states[n - 1], acts[n - 1].0, acts[n - 1].1;
      var r := PastStep(s, t, a);
      ChangePast(s.pcs, t, r.pcs[t]);
    }
  }

  /** In no run is stoppedChan closed more often than some caller's f returned or its time
      ran out, each caller's once. */
  lemma ClosesAreEarned(states: seq<State>, acts: seq<(nat, Action)>, n: nat)
    requires IsRun(states, acts) && n <= |acts|
    ensures states[n].stoppedCloses <= Ended(states, acts, n)
  {
    EndedExact(states, acts, n);
  }

  /** From moment `a` to `n` thread `t` is in one call of DoStop, past its waiting. */
  ghost predicate PastFrom(states: seq<State>, t: nat, a: nat, n: nat)
    requires n < |states|
  {
    forall i :: a <= i <= n ==> t < |states[i].pcs| && Past(states[i].pcs[t])
  }

  lemma PastLonger(states: seq<State>, t: nat, a: nat, n: nat)
    requires 0 < n < |states| && PastFrom(states, t, a, n - 1) && t < |states[n].pcs| && Past(states[n].pcs[t])
    ensures PastFrom(states, t, a, n)
  {}

  lemma PastNow(states: seq<State>, t: nat, n: nat)
    requires n < |states| && t < |states[n].pcs| && Past(states[n].pcs[t])
    ensures PastFrom(states, t, n, n)
  {}

  /** One comes past the waiting only when it is ended. */
  lemma BecomesPast(states: seq<State>, acts: seq<(nat, Action)>, n: nat, t: nat)
    requires IsRun(states, acts) && n < |acts| && t < |states[n + 1].pcs| && Past(states[n + 1].pcs[t])
    ensures t < |states[n].pcs| && (Past(states[n].pcs[t]) || (acts[n].0 == t && EndsAt(states, acts, n)))
  {
    var r := PastStep(states[n], acts[n].0, acts[n].1);
  }

  lemma NotAtStart(states: seq<State>, acts: seq<(nat, Action)>, n: nat, t: nat)
    requires IsRun(states, acts) && n <= |acts| && t < |states[n].pcs| && Past(states[n].pcs[t])
    ensures n > 0
  {}

  /** A caller that is past its waiting: the moment at which that was ended. */
  lemma {:induction false} EndedBefore(states: seq<State>, acts: seq<(nat, Action)>, n: nat, t: nat) returns (m: nat)
    requires IsRun(states, acts) && n <= |acts| && t < |states[n].pcs| && Past(states[n].pcs[t])
    ensures m < n && acts[m].0 == t && EndsAt(states, acts, m)
    ensures PastFrom(states, t, m + 1, n)
  {
    NotAtStart(states, acts, n, t);
    BecomesPast(states, acts, n - 1, t);
    if !Past(states[n - 1].pcs[t]) {
      m := n - 1;
      PastNow(states, t, n);
    } else {
      m := EndedBefore(states, acts, n - 1, t);
      PastLonger(states, t, m + 1, n);
    }
  }

  /** Whoever closes stoppedChan has seen its own f return or its own time run out before,
      in the same call. */
  lemma CloseIsEarned(states: seq<State>, acts: seq<(nat, Action)>, n: nat) returns (m: nat)
    requires IsRun(states, acts) && n < |acts| && ClosesAt(states, acts, n)
    ensures m < n && acts[m].0 == acts[n].0 && EndsAt(states, acts, m)
    ensures PastFrom(states, acts[n].0, m + 1, n)
  {
    m := EndedBefore(states, acts, n, acts[n].0);
  }

  lemma {:induction false} ClosedBefore(states: seq<State>, acts: seq<(nat, Action)>, n: nat) returns (m: nat)
    requires IsRun(states, acts) && n <= |acts| && states[n].stoppedCloses > 0
    ensures m < n && ClosesAt(states, acts, m)
  {
    var r := PastStep(states[n - 1], acts[n - 1].0, acts[n - 1].1);
    if ClosesAt(states, acts, n - 1) {
      m := n - 1;
    } else {
      m := ClosedBefore(states, acts, n - 1);
    }
  }

  /** WaitStopped returns only after some thread has closed stoppedChan, and that only after
      the f of that thread returned or its time ran out. */
  lemma WaitReturns(states: seq<State>, acts: seq<(nat, Action)>, n: nat) returns (m: nat, k: nat)
    requires IsRun(states, acts) && n < |acts|
    requires states[n].pcs[acts[n].0].WWait? && !states[n + 1].pcs[acts[n].0].WWait?
    ensures k < m < n && ClosesAt(states, acts, m) && EndsAt(states, acts, k) && acts[k].0 == acts[m].0
  {
    m := ClosedBefore(states, acts, n);
    k := CloseIsEarned(states, acts, m);
  }

  // ---- one caller at a time ----

  /** DoStop is called only while no other thread is in it. */
  ghost predicate OneAtATime(states: seq<State>, acts: seq<(nat, Action)>)
    requires IsRun(states, acts)
  {
    forall j :: 0 <= j < |acts| && acts[j].1.CallStop? ==> Vacant(states[j])
  }

  predicate Vacant(s: State) { forall t :: 0 <= t < |s.pcs| ==> !InStop(s.pcs[t]) }

  /** At most one thread is in DoStop, and a caller before its first check finds the flag
      up unless it is the first of all. */
  ghost predicate Lone(s: State) {
    && (forall t, u :: 0 <= t < u < |s.pcs| ==> !(InStop(s.pcs[t]) && InStop(s.pcs[u])))
    && s.passed <= 1
    && (forall t :: 0 <= t < |s.pcs| && s.pcs[t].DCheck? && s.passed == 1 ==> s.stopping)
  }

  /** Once a call has got past the first check and is gone the flag is up. */
  lemma GoneMeansStopping(s: State)
    requires Inv(s) && Vacant(s) && s.passed > 0
    ensures s.stopping
  {
    NoneInside(s.pcs);
  }

  /** A step that begins no call of DoStop and is not a first check. */
  lemma LoneFrame(s: State, t: nat, r: State)
    requires Lone(s) && t < |s.pcs| == |r.pcs| && r.pcs == s.pcs[t := r.pcs[t]]
    requires r.passed == s.passed && (s.stopping ==> r.stopping)
    requires InStop(r.pcs[t]) ==> InStop(s.pcs[t]) && !r.pcs[t].DCheck?
    ensures Lone(r)
  {}

  lemma LoneCheck(s: State, t: nat)
    requires Lone(s) && t < |s.pcs| && s.pcs[t].DCheck?
    ensures Lone(StopStep(s, t))
  {
    var r := StopStep(s, t);
    forall u | 0 <= u < |r.pcs| ensures !r.pcs[u].DCheck? {
      if u != t && s.pcs[u].DCheck? {
        assert InStop(s.pcs[u]);
        assert false;
      }
    }
  }

  lemma LoneCall(s: State, t: nat)
    requires Lone(s) && Inv(s) && Enabled(s, t, CallStop) && Vacant(s)
    ensures Lone(After(s, t, CallStop))
  {
    if s.passed > 0 {
      GoneMeansStopping(s);
    }
  }

  lemma LoneStop(s: State, t: nat)
    requires Lone(s) && t < |s.pcs| && InStop(s.pcs[t])
    ensures Lone(StopStep(s, t))
  {
    if s.pcs[t].DCheck? {
      LoneCheck(s, t);
    } else {
      LoneFrame(s, t, StopStep(s, t));
    }
  }

  lemma LoneKept(s: State, t: nat, a: Action)
    requires Lone(s) && Inv(s) && Enabled(s, t, a) && (a.CallStop? ==> Vacant(s))
    ensures Lone(After(s, t, a))
  {
    match a {
      case CallStop => LoneCall(s, t);
      case Timeout => LoneStop(s, t);
      case Step =>
        if InTrigger(s.pcs[t]) {
          LoneFrame(s, t, TriggerStep(s, t));
        } else if InStop(s.pcs[t]) {
          LoneStop(s, t);
        } else {
          LoneFrame(s, t, After(s, t, a));
        }
      case _ => LoneFrame(s, t, After(s, t, a));
    }
  }

  /** If callers take DoStop one at a time, nothing ever panics, however often they call. */
  lemma {:induction false} OneAtATimeIsSafe(states: seq<State>, acts: seq<(nat, Action)>, j: nat)
    requires IsRun(states, acts) && OneAtATime(states, acts) && j <= |acts|
    ensures Lone(states[j]) && !Panicked(states[j])
  {
    RunKeepsInv(states, acts, j);
    if j > 0 {
      OneAtATimeIsSafe(states, acts, j - 1);
      RunKeepsInv(states, acts, j - 1);
      LoneKept(states[j - 1], acts[j - 1].0, acts[j - 1].1);
    }
  }

  // ---- two callers at once ----

  /** The run that goes on with one more action. */
  lemma Go(states: seq<State>, acts: seq<(nat, Action)>, t: nat, a: Action)
      returns (more: seq<State>, moreActs: seq<(nat, Action)>)
    requires IsRun(states, acts) && Enabled(states[|acts|], t, a)
    ensures moreActs == acts + [(t, a)] && IsRun(more, moreActs)
    ensures more == states + [After(states[|acts|], t, a)]
  {
    moreActs := acts + [(t, a)];
    more := states + [After(states[|acts|], t, a)];
  }

  /** A state in which nobody uses the trigger. */
  function Two(first: Pc, second: Pc, lock: Option<nat>, stopping: bool, closes: nat,
               stopped: nat, passed: nat, runs: nat, outcomes: nat): State
  {
    State([first, second], None, false, 0, lock, stopping, closes, stopped, passed, runs, outcomes)
  }

  ghost predicate Reaches(states: seq<State>, acts: seq<(nat, Action)>, s: State) {
    IsRun(states, acts) && states[|acts|] == s && states[0] == Two(Idle, Idle, None, false, 0, 0, 0, 0, 0)
  }

  lemma Next(states: seq<State>, acts: seq<(nat, Action)>, s: State, t: nat, a: Action, r: State)
      returns (more: seq<State>, moreActs: seq<(nat, Action)>)
    requires Reaches(states, acts, s) && Enabled(s, t, a) && After(s, t, a) == r
    ensures Reaches(more, moreActs, r)
  {
    more, moreActs := Go(states, acts, t, a);
  }

  /** Both read the flag before either stores it. */
  lemma BothCheck() returns (ss: seq<State>, aa: seq<(nat, Action)>)
    ensures Reaches(ss, aa, Two(DLock, DLock, None, false, 0, 0, 2, 0, 0))
  {
    var s := Two(Idle, Idle, None, false, 0, 0, 0, 0, 0);
    ss, aa := [s], [];
    var s1 := Two(DCheck, Idle, None, false, 0, 0, 0, 0, 0);
    ss, aa := Next(ss, aa, s, 0, CallStop, s1);
    var s2 := Two(DCheck, DCheck, None, false, 0, 0, 0, 0, 0);
    ss, aa := Next(ss, aa, s1, 1, CallStop, s2);
    var s3 := Two(DLock, DCheck, None, false, 0, 0, 1, 0, 0);
    ss, aa := Next(ss, aa, s2, 0, Step, s3);
    ss, aa := Next(ss, aa, s3, 1, Step, Two(DLock, DLock, None, false, 0, 0, 2, 0, 0));
  }

  /** The first announces stopping. The second finds the flag up at its second check,
      but the return there leaves only the inner function. */
  lemma BothAnnounce() returns (ss: seq<State>, aa: seq<(nat, Action)>)
    ensures Reaches(ss, aa, Two(DRun, DRun, None, true, 1, 0, 2, 0, 0))
  {
    ss, aa := BothCheck();
    var s := Two(DLock, DLock, None, false, 0, 0, 2, 0, 0);
    var s1 := Two(DRecheck, DLock, Some(0), false, 0, 0, 2, 0, 0);
    ss, aa := Next(ss, aa, s, 0, Step, s1);
    var s2 := Two(DClose, DLock, Some(0), false, 0, 0, 2, 0, 0);
    ss, aa := Next(ss, aa, s1, 0, Step, s2);
    var s3 := Two(DStore, DLock, Some(0), false, 1, 0, 2, 0, 0);
    ss, aa := Next(ss, aa, s2, 0, Step, s3);
    var s4 := Two(DUnlock, DLock, Some(0), true, 1, 0, 2, 0, 0);
    ss, aa := Next(ss, aa, s3, 0, Step, s4);
    var s5 := Two(DRun, DLock, None, true, 1, 0, 2, 0, 0);
    ss, aa := Next(ss, aa, s4, 0, Step, s5);
    var s6 := Two(DRun, DRecheck, Some(1), true, 1, 0, 2, 0, 0);
    ss, aa := Next(ss, aa, s5, 1, Step, s6);
    var s7 := Two(DRun, DUnlock, Some(1), true, 1, 0, 2, 0, 0);
    ss, aa := Next(ss, aa, s6, 1, Step, s7);
    ss, aa := Next(ss, aa, s7, 1, Step, Two(DRun, DRun, None, true, 1, 0, 2, 0, 0));
  }

  /** So both run their f and both close stoppedChan. */
  lemma TwoStopsPanic() returns (ss: seq<State>, aa: seq<(nat, Action)>)
    ensures IsRun(ss, aa) && |ss[0].pcs| == 2
    ensures var s := ss[|aa|]; Panicked(s) && s.stoppedCloses == 2 && s.runs == 2 && s.passed == 2
  {
    ss, aa := BothAnnounce();
    var s := Two(DRun, DRun, None, true, 1, 0, 2, 0, 0);
    var s1 := Two(DWait(false), DRun, None, true, 1, 0, 2, 1, 0);
    ss, aa := Next(ss, aa, s, 0, Step, s1);
    var s2 := Two(DWait(false), DWait(false), None, true, 1, 0, 2, 2, 0);
    ss, aa := Next(ss, aa, s1, 1, Step, s2);
    var s3 := Two(DFinish, DWait(false), None, true, 1, 0, 2, 2, 1);
    ss, aa := Next(ss, aa, s2, 0, Timeout, s3);
    var s4 := Two(DFinish, DFinish, None, true, 1, 0, 2, 2, 2);
    ss, aa := Next(ss, aa, s3, 1, Timeout, s4);
    var s5 := Two(Idle, DFinish, None, true, 1, 1, 2, 2, 2);
    ss, aa := Next(ss, aa, s4, 0, Step, s5);
    ss, aa := Next(ss, aa, s5, 1, Step, Two(Idle, Idle, None, true, 1, 2, 2, 2, 2));
  }
}
