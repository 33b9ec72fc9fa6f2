/** Calls of several sections in the runs of instructions under locks: every such run,
    with books about which calls are under way, is a trace of whole sections. */
module CallRuns {
  import opened Wrappers
  import opened ShardSpec
  import opened LockSections
  import opened Calls
  import Snapshots

  /** What an action of a thread means for the call of its client. Calls begin and return
      outside the locks; a section counts when its lock is given back. */
  ghost predicate Means<K(!new), V(!new)>(a: Action<K, V>, e: Event<K, V>, st: Step<K, V>) {
    match e
    case Internal => st.Pause? || (a.Local? && (st.CallGather? || st.CallScatter? || st.Return?))
    case ReadDone(t, i, all, got) =>
      st.Pause? || (st.Gather? && st.part.shard == i && st.part.all == all && st.got == got)
    case WriteDone(t, i, body, seen) =>
      (st.Scatter? || st.Other?) && st.shard == i && st.body == body
  }

  /** A run of threads, the client each thread belongs to, and the books: `steps[j]` is what
      action `j` means, and `cls[j]` the calls under way at moment `j`. */
  datatype Account<!K(==,!new), !V(!new)> = Account(
    states: seq<State<K, V>>, sched: seq<(nat, Action<K, V>)>, owner: nat -> nat,
    steps: seq<Step<K, V>>, cls: seq<seq<Client<K, V>>>)
  {
    ghost predicate Valid(hash: K -> nat) {
      && IsRun(states, sched) && |cls| == |states| && |steps| == |sched|
      && Placed(hash, states[0].committed) && (forall c :: 0 <= c < |cls[0]| ==> cls[0][c].Idle?)
      && forall j :: 0 <= j < |sched| ==> BookedAt(hash, j)
    }

    ghost predicate BookedAt(hash: K -> nat, j: nat)
      requires IsRun(states, sched) && |cls| == |states| && |steps| == |sched| && j < |sched|
    {
      && Means(sched[j].1, EventAt(states, sched, j), steps[j])
      && Books(hash, cls[j], j, owner(sched[j].0), steps[j], cls[j + 1])
    }

    ghost function Worlds(): (ws: seq<World<K, V>>)
      requires |cls| == |states|
      ensures |ws| == |states|
      ensures forall j :: 0 <= j < |ws| ==> ws[j] == World(states[j].committed, cls[j])
    {
      seq(|states|, j requires 0 <= j < |states| => World(states[j].committed, cls[j]))
    }

    ghost function Who(): (who: seq<nat>)
      ensures |who| == |sched| && forall j :: 0 <= j < |who| ==> who[j] == owner(sched[j].0)
    {
      seq<nat>(|sched|, j requires 0 <= j < |sched| => owner(sched[j].0))
    }

    /** The flat map of the shards as the sections up to moment `m` left them. */
    ghost function FlatMap(m: nat): map<K, V>
      requires m < |states|
    {
      Flat(states[m].committed)
    }

    /** Each instruction is a step of the machine of whole sections. */
    lemma StepTaken(hash: K -> nat, j: nat)
      requires Valid(hash) && j < |sched|
      ensures Takes(hash, Worlds()[j], j, Who()[j], steps[j], Worlds()[j + 1])
    {
      assert BookedAt(hash, j);
      RunRefines(states, sched);
      var e := EventAt(states, sched, j);
      assert Section(states[j].committed, e, states[j + 1].committed);
    }

    /** Every interleaving of instructions under the locks is a trace of whole sections. */
    lemma IsTrace(hash: K -> nat)
      requires Valid(hash)
      ensures Trace(hash, Worlds(), Who(), steps)
    {
      forall j | 0 <= j < |steps| ensures Takes(hash, Worlds()[j], j, Who()[j], steps[j], Worlds()[j + 1]) {
        StepTaken(hash, j);
      }
    }

    /** `answer` was what the flat map holds for `k` at some moment from `since` to `n`. */
    ghost predicate HeldBetween(since: nat, n: nat, k: K, answer: Option<V>)
      requires n < |states|
    {
      exists m :: since <= m <= n && Lookup(FlatMap(m), k) == answer
    }

    lemma HeldIfTrue(since: nat, n: nat, k: K, answer: Option<V>)
      requires |cls| == |states| && n < |states| && TrueBetween(Worlds(), since, n, k, answer)
      ensures HeldBetween(since, n, k, answer)
    {
      var m :| since <= m <= n && Truth(Worlds()[m], k) == answer;
      assert Lookup(FlatMap(m), k) == answer;
    }

    /** In every interleaving of instructions, MGet answers each of its keys with what the
        one flat map held between call and return. */
    lemma MGetInRun(hash: K -> nat, n: nat, c: nat, keys: set<K>, k: K)
      requires Valid(hash) && n < |states| && c < |cls[n]| && k in keys
      requires var cl := cls[n][c];
               && cl.Gathering? && cl.todo == {}
               && (cl.asked == GroupedParts(hash, keys) || cl.asked == SingleParts(hash, keys))
      ensures HeldBetween(cls[n][c].since, n, k, Lookup(cls[n][c].result, k))
    {
      IsTrace(hash);
      MGetAnswers(hash, Worlds(), Who(), steps, n, c, keys, k);
      HeldIfTrue(cls[n][c].since, n, k, Lookup(cls[n][c].result, k));
    }

    /** Items answers every key so. */
    lemma ItemsInRun(hash: K -> nat, n: nat, c: nat, k: K)
      requires Valid(hash) && n < |states| && c < |cls[n]|
      requires var cl := cls[n][c]; cl.Gathering? && cl.todo == {} && cl.asked == WholeParts()
      ensures HeldBetween(cls[n][c].since, n, k, Lookup(cls[n][c].result, k))
    {
      IsTrace(hash);
      ItemsAnswers(hash, Worlds(), Who(), steps, n, c, k);
      HeldIfTrue(cls[n][c].since, n, k, Lookup(cls[n][c].result, k));
    }

    /** And every value of a finished MSet was there between call and return. */
    lemma MSetInRun(hash: K -> nat, n: nat, c: nat, k: K)
      requires Valid(hash) && n < |states| && c < |cls[n]|
      requires var cl := cls[n][c]; cl.Scattering? && cl.unset == {} && k in cl.data
      ensures HeldBetween(cls[n][c].since, n, k, Some(cls[n][c].data[k]))
    {
      IsTrace(hash);
      ScatterLands(hash, Worlds(), Who(), steps, n, c, k);
      HeldIfTrue(cls[n][c].since, n, k, Some(cls[n][c].data[k]));
    }

    /** If at most one write section ends during a call of Items, its result is the flat
        map of one moment of the call. */
    lemma ItemsSnapshotInRun(hash: K -> nat, n: nat, c: nat)
      requires Valid(hash) && n < |states| && c < |cls[n]|
      requires var cl := cls[n][c]; cl.Gathering? && cl.todo == {} && cl.asked == WholeParts()
      requires cls[n][c].since <= n && Snapshots.Writes(steps[cls[n][c].since..n]) <= 1
      ensures exists m :: cls[n][c].since <= m <= n && cls[n][c].result == FlatMap(m)
    {
      IsTrace(hash);
      var ws := Worlds();
      Snapshots.SnapshotUpToOne<K, V>(hash, 1);
      assert Snapshots.DoneItems(ws[n], c);
      assert Snapshots.SnapshotIfFew(hash, 1, ws, Who(), steps, n, c);
      var m :| cls[n][c].since <= m <= n && cls[n][c].result == Flat(ws[m].shards);
      assert cls[n][c].result == FlatMap(m);
    }
  }
}
