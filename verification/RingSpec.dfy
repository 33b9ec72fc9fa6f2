/** Routing on a consistent-hash ring, as mathematics on sorted sequences of
    virtual nodes: clockwise distance, runs of membership changes, and how much
    of the routing a change may disturb. */
module RingSpec {
  import opened Wrappers

  /** One virtual node. `spot` stands for the string "name:spot" that is hashed. */
  datatype VNode = VNode(name: string, spot: nat, hash: nat)

  /** Everything about a ring that never changes: the murmur hash of "name:spot"
      is left uninterpreted and cut to the width of the ring (2^64 or 2^32). */
  datatype Params = Params(spots: nat, modulus: nat, hashOf: (string, nat) -> nat) {
    ghost predicate Ok() { spots > 0 && modulus > 0 }

    function Spot(name: string, i: nat): VNode
      requires modulus > 0
    {
      VNode(name, i, hashOf(name, i) % modulus)
    }

    /** The first `k` virtual nodes of `name`. */
    function SpotsOf(name: string, k: nat): (r: seq<VNode>)
      requires modulus > 0
      ensures |r| == k && forall i :: 0 <= i < k ==> r[i] == Spot(name, i)
    {
      if k == 0 then [] else SpotsOf(name, k - 1) + [Spot(name, k - 1)]
    }
  }

  ghost predicate Sorted(s: seq<VNode>) {
    forall i, j :: 0 <= i < j < |s| ==> s[i].hash <= s[j].hash
  }

  ghost predicate Below(s: seq<VNode>, modulus: nat) {
    forall i :: 0 <= i < |s| ==> s[i].hash < modulus
  }

  /** The order-preserving filter: everything not called `name`. */
  function Without(s: seq<VNode>, name: string): (r: seq<VNode>)
    ensures forall v :: v in r <==> v in s && v.name != name
  {
    if s == [] then []
    else (if s[0].name != name then [s[0]] else []) + Without(s[1..], name)
  }

  /** Index of the first virtual node at or after `target`, or |s|. */
  function FirstAtLeast(s: seq<VNode>, target: nat): (i: nat)
    ensures i <= |s|
    ensures i < |s| ==> s[i].hash >= target
    ensures forall j :: 0 <= j < i ==> s[j].hash < target
  {
    if s == [] || s[0].hash >= target then 0 else 1 + FirstAtLeast(s[1..], target)
  }

  /** The ring read once around, clockwise from `target`. */
  function Clockwise(s: seq<VNode>, target: nat): seq<VNode> {
    var i := FirstAtLeast(s, target);
    s[i..] + s[..i]
  }

  /** The node a key with this hash is routed to. */
  function Owner(s: seq<VNode>, target: nat): Option<string> {
    if s == [] then None
    else
      var i := FirstAtLeast(s, target);
      Some(s[if i == |s| then 0 else i].name)
  }

  /** How far clockwise `hash` lies from `target`. */
  function Distance(hash: nat, target: nat, modulus: nat): nat
    requires modulus > 0
  {
    (hash - target) % modulus
  }

  /** `v` is a virtual node of `s` at least clockwise distance from `target`. */
  ghost predicate Nearest(s: seq<VNode>, v: VNode, target: nat, modulus: nat)
    requires modulus > 0
  {
    v in s && forall w :: w in s ==> Distance(v.hash, target, modulus) <= Distance(w.hash, target, modulus)
  }

  lemma ModOfNegative(x: int, m: int)
    requires -m <= x < 0
    ensures x % m == x + m
  {
    var q, r := x / m, x % m;
    assert x == q * m + r;
    assert q >= 0 ==> q * m >= 0;
    assert q <= -2 ==> q * m <= -2 * m;
  }

  lemma DistanceCases(hash: nat, target: nat, modulus: nat)
    requires hash < modulus && target < modulus
    ensures Distance(hash, target, modulus) == if hash >= target then hash - target else hash - target + modulus
  {
    if hash < target {
      ModOfNegative(hash - target, modulus);
    }
  }

  /** Routing is by the nearest clockwise virtual node of the whole ring. */
  lemma OwnerIsNearest(s: seq<VNode>, target: nat, modulus: nat) returns (v: VNode)
    requires s != [] && Sorted(s) && Below(s, modulus) && target < modulus
    ensures Nearest(s, v, target, modulus) && Owner(s, target) == Some(v.name)
  {
    var i := FirstAtLeast(s, target);
    v := s[if i == |s| then 0 else i];
    DistanceCases(v.hash, target, modulus);
    forall w | w in s
      ensures Distance(v.hash, target, modulus) <= Distance(w.hash, target, modulus)
    {
      DistanceCases(w.hash, target, modulus);
      var j :| 0 <= j < |s| && s[j] == w;
    }
  }

  /** No two virtual nodes of different names share a hash. */
  ghost predicate NoCrossTies(s: seq<VNode>) {
    forall v, w :: v in s && w in s && v.hash == w.hash ==> v.name == w.name
  }

  lemma EqualDistance(a: nat, b: nat, target: nat, modulus: nat)
    requires a < modulus && b < modulus && target < modulus
    requires Distance(a, target, modulus) == Distance(b, target, modulus)
    ensures a == b
  {
    DistanceCases(a, target, modulus);
    DistanceCases(b, target, modulus);
  }

  /** Without cross ties, routing depends only on which virtual nodes there are. */
  lemma OwnerByContents(s: seq<VNode>, r: seq<VNode>, target: nat, modulus: nat)
    requires Sorted(s) && Below(s, modulus) && Sorted(r) && target < modulus
    requires forall v :: v in s <==> v in r
    requires NoCrossTies(s)
    ensures Owner(s, target) == Owner(r, target)
  {
    assert s == [] <==> r == [] by {
      assert s != [] ==> s[0] in r;
      assert r != [] ==> r[0] in s;
    }
    if s != [] {
      assert Below(r, modulus) by { forall i | 0 <= i < |r| ensures r[i].hash < modulus { assert r[i] in s; } }
      var v := OwnerIsNearest(s, target, modulus);
      var w := OwnerIsNearest(r, target, modulus);
      assert v in r && w in s;
      EqualDistance(v.hash, w.hash, target, modulus);
    }
  }

  // ---- removal: no hypothesis about ties ----

  lemma WithoutAppend(a: seq<VNode>, b: seq<VNode>, name: string)
    ensures Without(a + b, name) == Without(a, name) + Without(b, name)
  {
    if a == [] {
      assert a + b == b;
    } else {
      assert (a + b)[0] == a[0] && (a + b)[1..] == a[1..] + b;
      WithoutAppend(a[1..], b, name);
    }
  }

  lemma WithoutPrefix(s: seq<VNode>, i: nat, name: string)
    requires i < |s|
    ensures Without(s[..i + 1], name) == Without(s[..i], name) + if s[i].name != name then [s[i]] else []
  {
    assert s[..i + 1] == s[..i] + [s[i]];
    WithoutAppend(s[..i], [s[i]], name);
  }

  lemma WithoutBelow(s: seq<VNode>, name: string, modulus: nat)
    requires Below(s, modulus)
    ensures Below(Without(s, name), modulus)
  {
    var r := Without(s, name);
    forall k | 0 <= k < |r| ensures r[k].hash < modulus {
      assert r[k] in r;
    }
  }

  lemma WithoutSorted(s: seq<VNode>, name: string)
    requires Sorted(s)
    ensures Sorted(Without(s, name))
  {
    if s != [] {
      WithoutSorted(s[1..], name);
      forall v | v in Without(s[1..], name) ensures s[0].hash <= v.hash {
        assert v in s[1..];
      }
    }
  }

  lemma FirstAtLeastSplit(a: seq<VNode>, b: seq<VNode>, target: nat)
    requires forall v :: v in a ==> v.hash < target
    requires forall v :: v in b ==> v.hash >= target
    ensures FirstAtLeast(a + b, target) == |a|
  {
    assert forall j :: 0 <= j < |a| ==> (a + b)[j] in a;
    assert b != [] ==> (a + b)[|a|] in b;
  }

  /** Removing a node deletes its virtual nodes from the clockwise reading that
      starts at any key, and moves nothing else. */
  lemma RemoveCommutesWithClockwise(s: seq<VNode>, name: string, target: nat)
    requires Sorted(s)
    ensures Clockwise(Without(s, name), target) == Without(Clockwise(s, target), name)
  {
    var i := FirstAtLeast(s, target);
    var a, b := s[..i], s[i..];
    assert s == a + b;
    WithoutAppend(a, b, name);
    WithoutAppend(b, a, name);
    FirstAtLeastSplit(Without(a, name), Without(b, name), target);
  }

  lemma OwnerHeadsClockwise(s: seq<VNode>, target: nat)
    ensures |Clockwise(s, target)| == |s|
    ensures s != [] ==> Owner(s, target) == Some(Clockwise(s, target)[0].name)
  {}

  /** The first virtual node not called `name`, reading from the front. */
  function FirstOther(s: seq<VNode>, name: string): Option<string> {
    if s == [] then None
    else if s[0].name != name then Some(s[0].name)
    else FirstOther(s[1..], name)
  }

  lemma FirstOtherHeadsWithout(s: seq<VNode>, name: string)
    ensures FirstOther(s, name) == if Without(s, name) == [] then None else Some(Without(s, name)[0].name)
  {}

  /** Minimal disruption on removal, ties or not: a key keeps its owner unless the
      owner was removed, and then it goes to the next clockwise virtual node of
      another name. */
  lemma RemoveDisruption(s: seq<VNode>, name: string, target: nat)
    requires Sorted(s)
    ensures Owner(s, target) != Some(name) ==> Owner(Without(s, name), target) == Owner(s, target)
    ensures Owner(Without(s, name), target) == FirstOther(Clockwise(s, target), name)
    ensures Owner(Without(s, name), target) != Some(name)
  {
    var r := Without(s, name);
    RemoveCommutesWithClockwise(s, name, target);
    OwnerHeadsClockwise(s, target);
    OwnerHeadsClockwise(r, target);
    FirstOtherHeadsWithout(Clockwise(s, target), name);
    assert r != [] ==> Clockwise(r, target)[0] in Clockwise(r, target);
  }

  // ---- one membership change, and runs of them ----

  datatype Op = Add(name: string) | Remove(name: string)

  /** What a change may do. The sort after an addition is known only to give a
      sorted permutation: it is not stable, so it may re-order equal hashes. */
  ghost predicate Step(p: Params, s: seq<VNode>, op: Op, r: seq<VNode>)
    requires p.Ok()
  {
    match op
    case Add(n) => Sorted(r) && multiset(r) == multiset(s) + multiset(p.SpotsOf(n, p.spots))
    case Remove(n) => r == Without(s, n)
  }

  /** A run from the empty ring: `states[i + 1]` is the ring after `ops[i]`. */
  ghost predicate Run(p: Params, states: seq<seq<VNode>>, ops: seq<Op>)
    requires p.Ok()
  {
    && |states| == |ops| + 1
    && states[0] == []
    && forall i :: 0 <= i < |ops| ==> Step(p, states[i], ops[i], states[i + 1])
  }

  function Members(ops: seq<Op>): set<string> {
    if ops == [] then {}
    else
      var before := Members(ops[..|ops| - 1]);
      match ops[|ops| - 1]
      case Add(n) => before + {n}
      case Remove(n) => before - {n}
  }

  /** How often `name` was added after its last removal. */
  function AddsSinceRemoval(ops: seq<Op>, name: string): nat {
    if ops == [] then 0
    else
      var before := AddsSinceRemoval(ops[..|ops| - 1], name);
      match ops[|ops| - 1]
      case Add(n) => if n == name then before + 1 else before
      case Remove(n) => if n == name then 0 else before
  }

  /** The ring holds each spot of each name exactly as often as the name was
      added since its last removal. */
  ghost predicate Shape(p: Params, s: seq<VNode>, ops: seq<Op>)
    requires p.Ok()
  {
    && Sorted(s)
    && forall v :: multiset(s)[v] == if v.spot < p.spots && v == p.Spot(v.name, v.spot)
                                     then AddsSinceRemoval(ops, v.name) else 0
  }

  lemma SpotsOfMultiset(p: Params, name: string, k: nat)
    requires p.modulus > 0
    ensures forall v ::
      multiset(p.SpotsOf(name, k))[v] == if v.name == name && v.spot < k && v == p.Spot(name, v.spot) then 1 else 0
  {
    if k > 0 {
      SpotsOfMultiset(p, name, k - 1);
    }
  }

  lemma WithoutMultiset(s: seq<VNode>, name: string)
    ensures forall v :: multiset(Without(s, name))[v] == if v.name == name then 0 else multiset(s)[v]
  {
    if s != [] {
      assert s == [s[0]] + s[1..];
      WithoutMultiset(s[1..], name);
    }
  }

  lemma StepKeepsShape(p: Params, s: seq<VNode>, op: Op, r: seq<VNode>, ops: seq<Op>)
    requires p.Ok() && Shape(p, s, ops) && Step(p, s, op, r)
    ensures Shape(p, r, ops + [op])
  {
    assert (ops + [op])[..|ops|] == ops;
    match op
    case Add(n) => SpotsOfMultiset(p, n, p.spots);
    case Remove(n) =>
      WithoutSorted(s, n);
      WithoutMultiset(s, n);
  }

  lemma {:induction false} RunShape(p: Params, states: seq<seq<VNode>>, ops: seq<Op>)
    requires p.Ok() && Run(p, states, ops)
    ensures Shape(p, states[|ops|], ops)
  {
    if ops != [] {
      var n := |ops| - 1;
      RunShape(p, states[..|ops|], ops[..n]);
      StepKeepsShape(p, states[n], ops[n], states[n + 1], ops[..n]);
      assert ops[..n] + [ops[n]] == ops;
    }
  }

  lemma {:induction false} MembersAreAdded(ops: seq<Op>, name: string)
    ensures name in Members(ops) <==> AddsSinceRemoval(ops, name) > 0
  {
    if ops != [] { MembersAreAdded(ops[..|ops| - 1], name); }
  }

  /** After any run the virtual nodes present are the spots of the members. */
  lemma RunContents(p: Params, states: seq<seq<VNode>>, ops: seq<Op>)
    requires p.Ok() && Run(p, states, ops)
    ensures Sorted(states[|ops|]) && Below(states[|ops|], p.modulus)
    ensures forall v :: v in states[|ops|] <==>
      v.name in Members(ops) && v.spot < p.spots && v == p.Spot(v.name, v.spot)
  {
    var s := states[|ops|];
    RunShape(p, states, ops);
    forall v
      ensures v in s <==> v.name in Members(ops) && v.spot < p.spots && v == p.Spot(v.name, v.spot)
    {
      MembersAreAdded(ops, v.name);
      assert v in s <==> multiset(s)[v] > 0;
    }
    forall i | 0 <= i < |s| ensures s[i].hash < p.modulus {
      assert s[i] in s;
      assert s[i] == p.Spot(s[i].name, s[i].spot);
    }
  }

  // ---- the hashes on the ring ----

  /** How many virtual nodes called `name` have the hash `h`. */
  function Named(s: seq<VNode>, name: string, h: nat): nat {
    if s == [] then 0 else Named(s[1..], name, h) + if s[0].name == name && s[0].hash == h then 1 else 0
  }

  /** How many of the strings "name:0" to "name:k-1" hash to `h`. */
  function Hits(p: Params, name: string, k: nat, h: nat): nat
    requires p.modulus > 0
  {
    if k == 0 then 0 else Hits(p, name, k - 1, h) + if p.hashOf(name, k - 1) % p.modulus == h then 1 else 0
  }

  lemma {:induction false} NamedConcat(a: seq<VNode>, b: seq<VNode>, name: string, h: nat)
    ensures Named(a + b, name, h) == Named(a, name, h) + Named(b, name, h)
  {
    if a == [] {
      assert a + b == b;
    } else {
      assert (a + b)[1..] == a[1..] + b;
      NamedConcat(a[1..], b, name, h);
    }
  }

  lemma Cancel(x: multiset<VNode>, y: multiset<VNode>, v: VNode)
    requires x + multiset{v} == y + multiset{v}
    ensures x == y
  {
    forall w ensures x[w] == y[w] {
      assert (x + multiset{v})[w] == (y + multiset{v})[w];
    }
  }

  lemma Inserted(c: seq<VNode>, v: VNode, d: seq<VNode>)
    ensures multiset(c + ([v] + d)) == multiset(c + d) + multiset{v}
  {}

  /** The first virtual node of one order, found in another. */
  lemma FindFirst(a: seq<VNode>, b: seq<VNode>) returns (c: seq<VNode>, d: seq<VNode>)
    requires multiset(a) == multiset(b) && a != []
    ensures b == c + ([a[0]] + d) && multiset(a[1..]) == multiset(c + d)
  {
    assert a[0] in multiset(b);
    var j :| 0 <= j < |b| && b[j] == a[0];
    c, d := b[..j], b[j + 1..];
    assert b == c + ([a[0]] + d) && a == [] + ([a[0]] + a[1..]);
    Inserted(c, a[0], d);
    Inserted([], a[0], a[1..]);
    assert [] + a[1..] == a[1..];
    Cancel(multiset(a[1..]), multiset(c + d), a[0]);
  }

  /** The order does not matter. */
  lemma {:induction false} NamedPermuted(a: seq<VNode>, b: seq<VNode>, name: string, h: nat)
    requires multiset(a) == multiset(b)
    ensures Named(a, name, h) == Named(b, name, h)
    decreases |a|
  {
    if a == [] {
      assert multiset(b) == multiset{};
    } else {
      var c, d := FindFirst(a, b);
      NamedPermuted(a[1..], c + d, name, h);
      NamedConcat(c, d, name, h);
      NamedConcat(c, [a[0]] + d, name, h);
      assert ([a[0]] + d)[1..] == d;
    }
  }

  lemma {:induction false} NamedSpots(p: Params, n: string, k: nat, name: string, h: nat)
    requires p.modulus > 0
    ensures Named(p.SpotsOf(n, k), name, h) == if n == name then Hits(p, name, k, h) else 0
  {
    if k > 0 {
      var v := p.Spot(n, k - 1);
      NamedSpots(p, n, k - 1, name, h);
      NamedConcat(p.SpotsOf(n, k - 1), [v], name, h);
      assert [v][1..] == [];
    }
  }

  lemma {:induction false} NamedWithout(s: seq<VNode>, n: string, name: string, h: nat)
    ensures Named(Without(s, n), name, h) == if n == name then 0 else Named(s, name, h)
  {
    if s != [] {
      NamedWithout(s[1..], n, name, h);
      var kept := if s[0].name != n then [s[0]] else [];
      NamedConcat(kept, Without(s[1..], n), name, h);
      assert kept != [] ==> kept[1..] == [];
    }
  }

  lemma StepHashes(p: Params, s: seq<VNode>, op: Op, r: seq<VNode>, name: string, h: nat)
    requires p.Ok() && Step(p, s, op, r)
    ensures Named(r, name, h) ==
      if op.name != name then Named(s, name, h)
      else if op.Add? then Named(s, name, h) + Hits(p, name, p.spots, h)
      else 0
  {
    match op
    case Add(n) =>
      var spots := p.SpotsOf(n, p.spots);
      NamedPermuted(r, s + spots, name, h);
      NamedConcat(s, spots, name, h);
      NamedSpots(p, n, p.spots, name, h);
    case Remove(n) => NamedWithout(s, n, name, h);
  }

  /** After any run the hashes on the ring under a name are, with multiplicities, those of
      its strings "name:i" cut to the width of the ring, once for each time it was added
      since its last removal. */
  lemma {:induction false} RunHashes(p: Params, states: seq<seq<VNode>>, ops: seq<Op>, name: string, h: nat)
    requires p.Ok() && Run(p, states, ops)
    ensures Named(states[|ops|], name, h) == AddsSinceRemoval(ops, name) * Hits(p, name, p.spots, h)
  {
    if ops != [] {
      var n := |ops| - 1;
      RunHashes(p, states[..|ops|], ops[..n], name, h);
      StepHashes(p, states[n], ops[n], states[n + 1], name, h);
      Counted(AddsSinceRemoval(ops[..n], name), AddsSinceRemoval(ops, name), Hits(p, name, p.spots, h),
              Named(states[n], name, h), Named(states[n + 1], name, h));
    }
  }

  lemma Counted(a: nat, b: nat, hits: nat, before: nat, after: nat)
    requires before == a * hits
    requires (b == a && after == before) || (b == a + 1 && after == before + hits) || (b == 0 && after == 0)
    ensures after == b * hits
  {
    if b == a + 1 {
      assert b * hits == a * hits + hits;
    }
  }

  /** A virtual node of `name` has the hash of its string "name:i". */
  ghost predicate HasHash(p: Params, s: seq<VNode>, name: string, i: nat)
    requires p.Ok()
  {
    exists v :: v in s && v.name == name && v.hash == p.hashOf(name, i) % p.modulus
  }

  lemma AddHashes(p: Params, s: seq<VNode>, name: string, r: seq<VNode>, i: nat)
    requires p.Ok() && Step(p, s, Add(name), r) && i < p.spots
    ensures HasHash(p, r, name, i)
  {
    var v := p.SpotsOf(name, p.spots)[i];
    assert v in multiset(r);
  }

  /** The string "name:i" is as near to `t` as any string of any member. */
  ghost predicate NearestString(p: Params, members: set<string>, name: string, i: nat, t: nat)
    requires p.Ok()
  {
    forall b, j: nat | b in members && j < p.spots ::
      Distance(p.hashOf(name, i) % p.modulus, t, p.modulus) <= Distance(p.hashOf(b, j) % p.modulus, t, p.modulus)
  }

  /** After any run a key is routed to a member with a string "name:i" whose hash comes
      first clockwise from the key's, among all strings of all members. */
  lemma RoutesToNearestString(p: Params, states: seq<seq<VNode>>, ops: seq<Op>, t: nat) returns (name: string, i: nat)
    requires p.Ok() && Run(p, states, ops) && Members(ops) != {} && t < p.modulus
    ensures name in Members(ops) && i < p.spots && NearestString(p, Members(ops), name, i, t)
    ensures Owner(states[|ops|], t) == Some(name)
  {
    var s := states[|ops|];
    RunContents(p, states, ops);
    var m :| m in Members(ops);
    assert p.Spot(m, 0) in s;
    var v := OwnerIsNearest(s, t, p.modulus);
    name, i := v.name, v.spot;
    forall b, j: nat | b in Members(ops) && j < p.spots
      ensures Distance(p.hashOf(name, i) % p.modulus, t, p.modulus)
           <= Distance(p.hashOf(b, j) % p.modulus, t, p.modulus)
    {
      assert p.Spot(b, j) in s;
    }
  }

  // ---- history ----

  /** No strings of different members share a hash. */
  ghost predicate MembersApart(p: Params, members: set<string>)
    requires p.Ok()
  {
    forall a, b, i: nat, j: nat | a in members && b in members && i < p.spots && j < p.spots ::
      p.hashOf(a, i) % p.modulus == p.hashOf(b, j) % p.modulus ==> a == b
  }

  /** A key that hashes like "name:i" is routed to `name`. */
  lemma StringRoutesHome(p: Params, states: seq<seq<VNode>>, ops: seq<Op>, name: string, i: nat)
    requires p.Ok() && Run(p, states, ops) && name in Members(ops) && i < p.spots
    requires MembersApart(p, Members(ops))
    ensures Owner(states[|ops|], p.hashOf(name, i) % p.modulus) == Some(name)
  {
    var t := p.hashOf(name, i) % p.modulus;
    var owner, k := RoutesToNearestString(p, states, ops, t);
    EqualDistance(p.hashOf(owner, k) % p.modulus, t, t, p.modulus);
  }

  /** Any two runs that end with these members route every key alike. */
  ghost predicate HistoryFree(p: Params, members: set<string>)
    requires p.Ok()
  {
    forall st1, ops1, st2, ops2, t: nat |
      && Run(p, st1, ops1) && Run(p, st2, ops2)
      && Members(ops1) == members && Members(ops2) == members && t < p.modulus ::
      Owner(st1[|ops1|], t) == Owner(st2[|ops2|], t)
  }

  lemma ApartMeansNoTies(p: Params, states: seq<seq<VNode>>, ops: seq<Op>)
    requires p.Ok() && Run(p, states, ops) && MembersApart(p, Members(ops))
    ensures NoCrossTies(states[|ops|])
  {
    RunContents(p, states, ops);
    forall v, w | v in states[|ops|] && w in states[|ops|] && v.hash == w.hash
      ensures v.name == w.name
    {
      assert v == p.Spot(v.name, v.spot) && w == p.Spot(w.name, w.spot);
    }
  }

  lemma SameMembersRouteAlike(
    p: Params, st1: seq<seq<VNode>>, ops1: seq<Op>, st2: seq<seq<VNode>>, ops2: seq<Op>, t: nat)
    requires p.Ok() && Run(p, st1, ops1) && Run(p, st2, ops2) && Members(ops1) == Members(ops2)
    requires MembersApart(p, Members(ops1)) && t < p.modulus
    ensures Owner(st1[|ops1|], t) == Owner(st2[|ops2|], t)
  {
    RunContents(p, st1, ops1);
    RunContents(p, st2, ops2);
    ApartMeansNoTies(p, st1, ops1);
    OwnerByContents(st1[|ops1|], st2[|ops2|], t, p.modulus);
  }

  // A sorted permutation may put any virtual node first among those that share its hash.

  function InsertFirst(s: seq<VNode>, v: VNode): (r: seq<VNode>)
    ensures multiset(r) == multiset(s) + multiset{v}
  {
    var i := FirstAtLeast(s, v.hash);
    assert s == s[..i] + s[i..];
    s[..i] + [v] + s[i..]
  }

  lemma SortedConcat(a: seq<VNode>, b: seq<VNode>, pivot: nat)
    requires Sorted(a) && Sorted(b)
    requires forall v :: v in a ==> v.hash <= pivot
    requires forall v :: v in b ==> v.hash >= pivot
    ensures Sorted(a + b)
  {
    forall i, j | 0 <= i < j < |a + b| ensures (a + b)[i].hash <= (a + b)[j].hash {
      assert i < |a| ==> (a + b)[i] in a;
      assert j >= |a| ==> (a + b)[j] in b;
    }
  }

  lemma SplitAtFirst(s: seq<VNode>, t: nat)
    requires Sorted(s)
    ensures forall v :: v in s[..FirstAtLeast(s, t)] ==> v.hash < t
    ensures forall v :: v in s[FirstAtLeast(s, t)..] ==> v.hash >= t
  {
    var i := FirstAtLeast(s, t);
    assert forall k :: i <= k < |s| ==> s[i].hash <= s[k].hash;
  }

  lemma OwnerOfSplit(a: seq<VNode>, b: seq<VNode>, t: nat)
    requires b != []
    requires forall v :: v in a ==> v.hash < t
    requires forall v :: v in b ==> v.hash >= t
    ensures Owner(a + b, t) == Some(b[0].name)
  {
    FirstAtLeastSplit(a, b, t);
  }

  lemma InsertFirstOwns(s: seq<VNode>, v: VNode)
    requires Sorted(s)
    ensures Sorted(InsertFirst(s, v))
    ensures Owner(InsertFirst(s, v), v.hash) == Some(v.name)
  {
    var i := FirstAtLeast(s, v.hash);
    var a, c := s[..i], s[i..];
    SplitAtFirst(s, v.hash);
    assert a + [v] + c == a + ([v] + c);
    SortedConcat([v], c, v.hash);
    SortedConcat(a, [v] + c, v.hash);
    OwnerOfSplit(a, [v] + c, v.hash);
  }

  function SortedForm(s: seq<VNode>): (r: seq<VNode>)
    ensures multiset(r) == multiset(s)
  {
    if s == [] then []
    else
      assert s == [s[0]] + s[1..];
      InsertFirst(SortedForm(s[1..]), s[0])
  }

  lemma SortedFormIsSorted(s: seq<VNode>)
    ensures Sorted(SortedForm(s))
  {
    if s != [] {
      SortedFormIsSorted(s[1..]);
      InsertFirstOwns(SortedForm(s[1..]), s[0]);
    }
  }

  /** `s` sorted so that its `k`th element leads its group of equal hashes. */
  lemma SortLeading(s: seq<VNode>, k: nat) returns (r: seq<VNode>)
    requires k < |s|
    ensures Sorted(r) && multiset(r) == multiset(s) && Owner(r, s[k].hash) == Some(s[k].name)
  {
    var rest := s[..k] + s[k + 1..];
    assert s == s[..k] + [s[k]] + s[k + 1..];
    SortedFormIsSorted(rest);
    InsertFirstOwns(SortedForm(rest), s[k]);
    r := InsertFirst(SortedForm(rest), s[k]);
  }

  /** Some run adds exactly these members. */
  lemma RunToMembers(p: Params, members: set<string>) returns (states: seq<seq<VNode>>, ops: seq<Op>)
    requires p.Ok()
    ensures Run(p, states, ops) && Members(ops) == members
    decreases members
  {
    if members == {} {
      states, ops := [[]], [];
    } else {
      var m :| m in members;
      var st, os := RunToMembers(p, members - {m});
      var all := st[|os|] + p.SpotsOf(m, p.spots);
      SortedFormIsSorted(all);
      states, ops := ExtendRun(p, st, os, Add(m), SortedForm(all));
      MembersAfterAdd(os, m);
    }
  }

  lemma ExtendRun(p: Params, st: seq<seq<VNode>>, os: seq<Op>, op: Op, r: seq<VNode>)
    returns (states: seq<seq<VNode>>, ops: seq<Op>)
    requires p.Ok() && Run(p, st, os) && Step(p, st[|os|], op, r)
    ensures states == st + [r] && ops == os + [op] && Run(p, states, ops)
  {
    states, ops := st + [r], os + [op];
    forall i | 0 <= i < |ops| ensures Step(p, states[i], ops[i], states[i + 1]) {
      assert i < |os| ==> Step(p, st[i], os[i], st[i + 1]);
    }
  }

  /** Adding `a` may leave it owning the hash of any of its spots. */
  lemma AddLeads(p: Params, s: seq<VNode>, a: string, i: nat) returns (r: seq<VNode>)
    requires p.Ok() && i < p.spots
    ensures Step(p, s, Add(a), r) && Owner(r, p.Spot(a, i).hash) == Some(a)
  {
    var spots := p.SpotsOf(a, p.spots);
    var all := s + spots;
    assert all[|s| + i] == spots[i] == p.Spot(a, i);
    r := SortLeading(all, |s| + i);
    assert multiset(all) == multiset(s) + multiset(spots);
  }

  /** And so some run with these members ends. */
  lemma ReAddLeads(p: Params, members: set<string>, a: string, i: nat)
    returns (states: seq<seq<VNode>>, ops: seq<Op>)
    requires p.Ok() && a in members && i < p.spots
    ensures Run(p, states, ops) && Members(ops) == members
    ensures Owner(states[|ops|], p.Spot(a, i).hash) == Some(a)
  {
    var st, os := RunToMembers(p, members);
    var r := AddLeads(p, st[|os|], a, i);
    states, ops := ExtendRun(p, st, os, Add(a), r);
    MembersAfterAdd(os, a);
    assert members + {a} == members;
  }

  lemma MembersAfterAdd(os: seq<Op>, a: string)
    ensures Members(os + [Add(a)]) == Members(os) + {a}
  {
    assert (os + [Add(a)])[..|os|] == os;
  }

  /** Routing is independent of history exactly for the member sets whose spots
      do not collide across names. */
  lemma HistoryIndependence(p: Params, members: set<string>)
    requires p.Ok()
    ensures HistoryFree(p, members) <==> MembersApart(p, members)
  {
    if MembersApart(p, members) {
      forall st1, ops1, st2, ops2, t: nat |
        && Run(p, st1, ops1) && Run(p, st2, ops2)
        && Members(ops1) == members && Members(ops2) == members && t < p.modulus
        ensures Owner(st1[|ops1|], t) == Owner(st2[|ops2|], t)
      {
        SameMembersRouteAlike(p, st1, ops1, st2, ops2, t);
      }
    } else {
      var a, b, i: nat, j: nat :| a in members && b in members && i < p.spots && j < p.spots
        && p.hashOf(a, i) % p.modulus == p.hashOf(b, j) % p.modulus && a != b;
      var st1, ops1 := ReAddLeads(p, members, a, i);
      var st2, ops2 := ReAddLeads(p, members, b, j);
      assert Owner(st1[|ops1|], p.Spot(a, i).hash) != Owner(st2[|ops2|], p.Spot(a, i).hash);
    }
  }

  // ---- addition ----

  /** Every virtual node not called `name` is called what its hash is routed to. */
  ghost predicate TieSafe(s: seq<VNode>, name: string) {
    forall v :: v in s && v.name != name ==> Owner(s, v.hash) == Some(v.name)
  }

  /** However the sort breaks ties, adding `name` moves keys only to `name`. */
  ghost predicate AddMovesOnlyTo(p: Params, s: seq<VNode>, name: string)
    requires p.Ok()
  {
    forall r, t: nat | Step(p, s, Add(name), r) && t < p.modulus ::
      Owner(r, t) == Owner(s, t) || Owner(r, t) == Some(name)
  }

  lemma AddedContents(p: Params, s: seq<VNode>, name: string, r: seq<VNode>)
    requires p.Ok() && Below(s, p.modulus) && Step(p, s, Add(name), r)
    ensures r != [] && Below(r, p.modulus)
    ensures forall v :: v in s ==> v in r
    ensures forall v :: v in r && v.name != name ==> v in s
  {
    var added := p.SpotsOf(name, p.spots);
    assert forall v :: v in r <==> v in s || v in added by {
      assert forall v :: v in r <==> v in multiset(r);
    }
    assert added[0] in r;
    forall k | 0 <= k < |r| ensures r[k].hash < p.modulus { assert r[k] in r; }
  }

  lemma AddMovesOnlyToNew(p: Params, s: seq<VNode>, name: string, r: seq<VNode>, t: nat)
    requires p.Ok() && Sorted(s) && Below(s, p.modulus) && TieSafe(s, name)
    requires Step(p, s, Add(name), r) && t < p.modulus
    ensures Owner(r, t) == Owner(s, t) || Owner(r, t) == Some(name)
  {
    AddedContents(p, s, name, r);
    var w := OwnerIsNearest(r, t, p.modulus);
    if w.name != name {
      var v := OwnerIsNearest(s, t, p.modulus);
      EqualDistance(v.hash, w.hash, t, p.modulus);
      SameHashSameOwner(s, v, t, p.modulus);
    }
  }

  /** A key and the virtual node nearest to it are routed alike. */
  lemma SameHashSameOwner(s: seq<VNode>, v: VNode, t: nat, modulus: nat)
    requires s != [] && Sorted(s) && Below(s, modulus) && t < modulus && Nearest(s, v, t, modulus)
    ensures Owner(s, v.hash) == Owner(s, t)
  {
    var i := FirstAtLeast(s, t);
    var k := if i == |s| then 0 else i;
    assert s[k] in s;
    var j :| 0 <= j < |s| && s[j] == v;
    DistanceCases(v.hash, t, modulus);
    DistanceCases(s[k].hash, t, modulus);
    assert v.hash == s[k].hash;
    assert FirstAtLeast(s, v.hash) == k;
  }

  /** Minimal disruption on addition, with the exact hypothesis about ties. */
  lemma AddDisruption(p: Params, s: seq<VNode>, name: string)
    requires p.Ok() && Sorted(s) && Below(s, p.modulus)
    ensures AddMovesOnlyTo(p, s, name) <==> TieSafe(s, name)
  {
    if TieSafe(s, name) {
      forall r, t: nat | Step(p, s, Add(name), r) && t < p.modulus
        ensures Owner(r, t) == Owner(s, t) || Owner(r, t) == Some(name)
      {
        AddMovesOnlyToNew(p, s, name, r, t);
      }
    } else {
      var v :| v in s && v.name != name && Owner(s, v.hash) != Some(v.name);
      var k :| 0 <= k < |s| && s[k] == v;
      var r := SortLeading(s + p.SpotsOf(name, p.spots), k);
      assert Step(p, s, Add(name), r);
      assert !(Owner(r, v.hash) == Owner(s, v.hash) || Owner(r, v.hash) == Some(name));
    }
  }

  /** So without ties across names an addition moves keys only to the new node. */
  lemma NoTiesAreSafe(s: seq<VNode>, name: string)
    requires Sorted(s) && NoCrossTies(s)
    ensures TieSafe(s, name)
  {
    forall v | v in s ensures Owner(s, v.hash) == Some(v.name) {
      var k :| 0 <= k < |s| && s[k] == v;
      var i := FirstAtLeast(s, v.hash);
      assert i <= k && s[i].hash <= s[k].hash;
      assert s[i] in s;
    }
  }

  /** However the sort breaks ties, adding `name` and removing it restores all routing. */
  ghost predicate AddRemoveRestores(p: Params, s: seq<VNode>, name: string)
    requires p.Ok()
  {
    forall r, t: nat | Step(p, s, Add(name), r) && t < p.modulus :: Owner(Without(r, name), t) == Owner(s, t)
  }

  /** Owner of a virtual node's hash after a sort that lets it lead and the removal. */
  lemma LeadsAfterRemoval(p: Params, s: seq<VNode>, name: string, v: VNode)
    requires p.Ok() && Sorted(s) && Below(s, p.modulus) && v in s && v.name != name
    requires AddRemoveRestores(p, s, name)
    ensures Owner(s, v.hash) == Some(v.name)
  {
    var k :| 0 <= k < |s| && s[k] == v;
    var r := SortLeading(s + p.SpotsOf(name, p.spots), k);
    assert Step(p, s, Add(name), r);
    AddedContents(p, s, name, r);
    RemoveDisruption(r, name, v.hash);
  }

  /** Adding a node that was not there and removing it restores all routing exactly
      if no two names tie. */
  lemma AddThenRemove(p: Params, s: seq<VNode>, name: string)
    requires p.Ok() && Sorted(s) && Below(s, p.modulus) && forall v :: v in s ==> v.name != name
    ensures AddRemoveRestores(p, s, name) <==> NoCrossTies(s)
  {
    if NoCrossTies(s) {
      forall r, t: nat | Step(p, s, Add(name), r) && t < p.modulus
        ensures Owner(Without(r, name), t) == Owner(s, t)
      {
        assert forall v :: v in r <==> v in multiset(r);
        WithoutSorted(r, name);
        OwnerByContents(s, Without(r, name), t, p.modulus);
      }
    }
    if AddRemoveRestores(p, s, name) {
      forall v | v in s ensures Owner(s, v.hash) == Some(v.name) {
        LeadsAfterRemoval(p, s, name, v);
      }
    }
  }
}
