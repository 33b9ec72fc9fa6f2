/** The string map may be made with any number of shards, while everything that uses it
    counts on 32. For which numbers it works. */
module ShardCounts {
  import opened Bitwise
  import opened Fnv
  import opened MachineInts
  import opened ShardSpec

  // ---- the shard of a key ----

  /** A map of `n` shards has the shard of every key. */
  ghost predicate AllInRange(n: nat) {
    forall key: seq<byte> :: HashOf(key) % SHARD_COUNT < n
  }

  lemma HashOfOne(b: byte)
    ensures HashOf([b]) == Round(OFFSET32, b)
  {
    var bytes: seq<byte> := [b];
    assert bytes[1..] == [];
    assert Rounds(OFFSET32, bytes) == Rounds(Round(OFFSET32, bytes[0]), bytes[1..]);
  }

  /** A byte that lands in shard `t` from a hash. */
  lemma LandingByte(h: uint32, t: nat) returns (b: byte)
    requires t < SHARD_COUNT
    ensures Round(h, b) % SHARD_COUNT == t
  {
    b := FittingByte(h, (27 * t) % 32);
    RoundLands(h, b, t);
  }

  lemma FittingByte(h: uint32, x: nat) returns (b: byte)
    ensures b % 32 == Xor(h, x, 5)
  {
    BytesAndShards();
    b := Xor(h, x, 5);
    ModUnique(b, 0, b, 32);
  }

  /** Every shard is the shard of some key of one byte. */
  lemma OneByteKey(t: nat) returns (key: seq<byte>)
    requires t < SHARD_COUNT
    ensures |key| == 1 && HashOf(key) % SHARD_COUNT == t
  {
    var b := LandingByte(OFFSET32, t);
    HashOfOne(b);
    key := [b];
  }

  /** Below 32 shards some key is out of range, and no other number is too small. */
  lemma InRangeExact(n: nat)
    ensures AllInRange(n) <==> n >= SHARD_COUNT
  {
    if n < SHARD_COUNT {
      var key := OneByteKey(n);
      assert HashOf(key) % SHARD_COUNT == n;
    }
  }

  // ---- calls that visit every shard ----

  /** The iterator starts a goroutine for each shard and gives each one of 32 channels;
      Count and IsEmpty look at 32 shards in turn; Keys first counts, and then starts a
      goroutine for each shard. */
  datatype Call = Iterate | CountAll | ListKeys

  /** `counted` shards have been looked at; `waiting` is the counter of the wait group,
      32 at first. */
  datatype State = State(counted: nat, gone: set<nat>, waiting: nat, panicked: bool)

  /** The counting loop looks at its next shard, or goroutine `i` has its turn. */
  datatype Turn = Look | Go(i: nat)

  ghost predicate CanTake(call: Call, n: nat, s: State, turn: Turn) {
    && !s.panicked
    && match turn
       case Look => !call.Iterate? && s.counted < SHARD_COUNT
       case Go(i) => !call.CountAll? && (call.ListKeys? ==> s.counted == SHARD_COUNT) && i < n && i !in s.gone
  }

  /** The counting loop reads slot `counted` of `n`, the iterator's goroutine writes its
      channel into slot `i` of 32, and a wait group panics if it is counted below zero. */
  ghost predicate Panics(call: Call, n: nat, s: State, turn: Turn) {
    match turn
    case Look => s.counted >= n
    case Go(i) => s.waiting == 0 || (call.Iterate? && i >= SHARD_COUNT)
  }

  ghost function After(call: Call, n: nat, s: State, turn: Turn): State
    requires CanTake(call, n, s, turn)
  {
    if Panics(call, n, s, turn) then s.(panicked := true)
    else match turn
      case Look => s.(counted := s.counted + 1)
      case Go(i) => s.(gone := s.gone + {i}, waiting := s.waiting - 1)
  }

  const START := State(0, {}, SHARD_COUNT, false)

  ghost predicate IsRun(call: Call, n: nat, states: seq<State>, turns: seq<Turn>) {
    && |states| == |turns| + 1 && states[0] == START
    && forall j :: 0 <= j < |turns| ==>
      CanTake(call, n, states[j], turns[j]) && states[j + 1] == After(call, n, states[j], turns[j])
  }

  /** Everyone has had their turn, or the program has ended in a panic. */
  ghost predicate Over(call: Call, n: nat, s: State) { forall turn :: !CanTake(call, n, s, turn) }

  /** The counting is done, or the wait is over. */
  ghost predicate Returns(call: Call, s: State) {
    !s.panicked && if call.CountAll? then s.counted == SHARD_COUNT else s.waiting == 0
  }

  ghost predicate PanicsFor(call: Call, n: nat) {
    match call
    case Iterate => n > SHARD_COUNT
    case CountAll => n < SHARD_COUNT
    case ListKeys => n != SHARD_COUNT
  }

  ghost predicate Inv(call: Call, n: nat, s: State) {
    && s.counted <= n && s.counted <= SHARD_COUNT
    && s.gone <= Below(n) && s.waiting + |s.gone| == SHARD_COUNT
    && (call.Iterate? ==> s.gone <= Below(SHARD_COUNT))
    && (s.gone != {} ==> !call.CountAll? && (call.ListKeys? ==> s.counted == SHARD_COUNT))
    && (s.panicked ==> PanicsFor(call, n))
  }

  lemma {:induction false} SizeOfBelow(n: nat)
    ensures |Below(n)| == n
  {
    if n > 0 {
      SizeOfBelow(n - 1);
    }
  }

  lemma SmallerSet(a: set<nat>, b: set<nat>)
    requires a <= b
    ensures |a| <= |b| && (|a| == |b| ==> a == b)
  {
    assert b == a + (b - a);
    if |a| == |b| { assert b - a == {}; }
  }

  /** Another number besides 32 of them makes 33. */
  lemma OneTooMany(s: set<nat>, i: nat, n: nat)
    requires s <= Below(n) && i < n && i !in s && |s| == SHARD_COUNT
    ensures n > SHARD_COUNT
  {
    SizeOfBelow(n);
    assert |s + {i}| == SHARD_COUNT + 1;
    SmallerSet(s + {i}, Below(n));
  }

  lemma StepKeeps(call: Call, n: nat, s: State, turn: Turn)
    requires Inv(call, n, s) && CanTake(call, n, s, turn)
    ensures Inv(call, n, After(call, n, s, turn))
  {
    if turn.Go? {
      if s.waiting == 0 {
        OneTooMany(s.gone, turn.i, n);
      } else if !Panics(call, n, s, turn) {
        GoneGrows(s.gone, turn.i);
      }
    }
  }

  lemma GoneGrows(s: set<nat>, i: nat)
    requires i !in s
    ensures |s + {i}| == |s| + 1
  {}

  lemma {:induction false} RunKeepsInv(call: Call, n: nat, states: seq<State>, turns: seq<Turn>, j: nat)
    requires IsRun(call, n, states, turns) && j <= |turns|
    ensures Inv(call, n, states[j])
  {
    if j > 0 {
      RunKeepsInv(call, n, states, turns, j - 1);
      StepKeeps(call, n, states[j - 1], turns[j - 1]);
    }
  }

  /** Without a panic the counting loop has come to its end, and all goroutines have gone. */
  lemma AllDone(call: Call, n: nat, s: State)
    requires Inv(call, n, s) && Over(call, n, s) && !s.panicked
    ensures !call.Iterate? ==> s.counted == SHARD_COUNT <= n
    ensures !call.CountAll? ==> s.waiting + n == SHARD_COUNT
  {
    assert !CanTake(call, n, s, Look);
    if !call.CountAll? {
      forall i | i in Below(n) ensures i in s.gone {
        assert !CanTake(call, n, s, Go(i));
      }
      assert s.gone == Below(n);
      SizeOfBelow(n);
    }
  }

  /** However the goroutines are scheduled, when everyone has had their turn: the iterator
      returns exactly if there are 32 shards, panics if there are more and waits for ever
      if there are fewer; Count panics if there are fewer and returns otherwise; and Keys,
      which counts first, panics unless there are 32. */
  lemma FinishesExactly(call: Call, n: nat, states: seq<State>, turns: seq<Turn>)
    requires IsRun(call, n, states, turns) && Over(call, n, states[|turns|])
    ensures Returns(call, states[|turns|]) <==> if call.CountAll? then n >= SHARD_COUNT else n == SHARD_COUNT
    ensures states[|turns|].panicked <==>
      match call
      case Iterate => n > SHARD_COUNT
      case CountAll => n < SHARD_COUNT
      case ListKeys => n != SHARD_COUNT
  {
    RunKeepsInv(call, n, states, turns, |turns|);
    var s := states[|turns|];
    if !s.panicked {
      AllDone(call, n, s);
    }
  }
}
