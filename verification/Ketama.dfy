/** The hash ring as the program keeps it: a growable array of virtual nodes that
    additions append to and sort in place, removals compact in place, and lookups
    bisect. The 64-bit ring over int64 keys and the 32-bit ring over string keys
    are the same class with different parameters. */
module Ketama {
  import opened MachineInts
  import opened Wrappers
  import opened RingSpec

  const DEFAULT_VIRTUAL_SPOTS := 160

  lemma AddedBelow(s: seq<VNode>, r: seq<VNode>, modulus: nat)
    requires Below(s, modulus) && Below(r, modulus)
    ensures Below(s + r, modulus)
  {}

  lemma PermutedBelow(s: seq<VNode>, r: seq<VNode>, modulus: nat)
    requires Below(s, modulus) && multiset(s) == multiset(r)
    ensures Below(r, modulus)
  {
    forall i | 0 <= i < |r| ensures r[i].hash < modulus {
      assert r[i] in multiset(s);
    }
  }

  lemma FoundFirst(s: seq<VNode>, t: nat, i: nat)
    requires Sorted(s) && i <= |s| && (i > 0 ==> s[i - 1].hash < t) && (i < |s| ==> s[i].hash >= t)
    ensures i == FirstAtLeast(s, t)
  {}

  class HashRing<K> {
    const p: Params
    const target: K -> nat  // the position of a key on the ring, before truncation
    var buf: array<VNode>   // backing array of the slice
    var len: nat

    ghost predicate Valid()
      reads this, buf
    {
      && p.Ok() && len <= buf.Length
      && Sorted(buf[..len]) && Below(buf[..len], p.modulus)
    }

    ghost function Nodes(): seq<VNode>
      reads this, buf
      requires Valid()
    {
      buf[..len]
    }

    constructor (virtualSpots: int, modulus: nat, hashOf: (string, nat) -> nat, target: K -> nat)
      requires modulus > 0
      ensures Valid() && fresh(buf) && Nodes() == []
      ensures p == Params(if virtualSpots <= 0 then 160 else virtualSpots, modulus, hashOf)
      ensures this.target == target
    {
      p := Params(if virtualSpots <= 0 then DEFAULT_VIRTUAL_SPOTS else virtualSpots, modulus, hashOf);
      this.target := target;
      buf := new VNode[0];
      len := 0;
    }

    method AddNode(name: string)
      requires Valid()
      modifies this, buf
      ensures Valid() && (buf == old(buf) || fresh(buf))
      ensures Step(p, old(Nodes()), Add(name), Nodes())
      ensures forall i: nat :: i < p.spots ==> HasHash(p, Nodes(), name, i)
    {
      ghost var before := Nodes();
      var nodes := Spots(name);
      Append(nodes);
      ghost var grown := buf[..len];
      SortPrefix(buf, len);
      AddedBelow(before, nodes, p.modulus);
      PermutedBelow(grown, buf[..len], p.modulus);
      forall i: nat | i < p.spots ensures HasHash(p, Nodes(), name, i) {
        AddHashes(p, before, name, Nodes(), i);
      }
    }

    /** The virtual nodes of a name. */
    method Spots(name: string) returns (nodes: seq<VNode>)
      requires p.Ok()
      ensures nodes == p.SpotsOf(name, p.spots)
      ensures Below(nodes, p.modulus)
    {
      nodes := [];
      for i := 0 to p.spots
        invariant nodes == p.SpotsOf(name, i) && Below(nodes, p.modulus)
      {
        nodes := nodes + [p.Spot(name, i)];
      }
    }

    /** Go's append: in place while the backing array has room, else a copy. */
    method Append(nodes: seq<VNode>)
      requires len <= buf.Length
      modifies this`buf, this`len, buf
      ensures len <= buf.Length && (buf == old(buf) || fresh(buf))
      ensures buf == old(buf) <==> old(len) + |nodes| <= old(buf.Length)
      ensures buf[..len] == old(buf[..len]) + nodes
    {
      var data := buf;
      if len + |nodes| > data.Length {
        data := Grown(|nodes|);
      }
      CopyIn(data, len, nodes);
      buf := data;
      len := len + |nodes|;
    }

    /** A larger array with the same contents. */
    method Grown(more: nat) returns (data: array<VNode>)
      requires len <= buf.Length
      ensures fresh(data) && data.Length >= len + more && data[..len] == buf[..len]
    {
      data := new VNode[2 * buf.Length + more];
      for i := 0 to len
        invariant data[..i] == buf[..i]
      {
        data[i] := buf[i];
      }
    }

    method RemoveNode(name: string)
      requires Valid()
      modifies this`len, buf
      ensures Valid() && buf == old(buf)
      ensures Step(p, old(Nodes()), Remove(name), Nodes())
    {
      ghost var was := Nodes();
      len := Compact(buf, len, name);
      WithoutSorted(was, name);
      WithoutBelow(was, name, p.modulus);
    }

    /** sort.Search over the ring: the bisection loop. */
    method Search(t: nat) returns (idx: nat)
      requires Valid()
      ensures idx == FirstAtLeast(Nodes(), t)
    {
      var i, j := 0, len;
      while i < j
        invariant 0 <= i <= j <= len
        invariant i > 0 ==> buf[i - 1].hash < t
        invariant j < len ==> buf[j].hash >= t
      {
        var h := (i + j) / 2;
        if !(buf[h].hash >= t) {
          i := h + 1;
        } else {
          j := h;
        }
      }
      idx := i;
      FoundFirst(Nodes(), t, i);
    }

    method GetNode(key: K) returns (name: string, found: bool)
      requires Valid()
      ensures !found ==> name == ""
      ensures Owner(Nodes(), target(key) % p.modulus) == if found then Some(name) else None
      ensures found <==> Nodes() != []
      ensures found ==> exists v: VNode :: v.name == name && Nearest(Nodes(), v, target(key) % p.modulus, p.modulus)
    {
      if len == 0 {
        return "", false;
      }
      var targetHash := target(key) % p.modulus;
      var idx := Search(targetHash);
      if idx == len {
        idx := 0;
      }
      ghost var v := OwnerIsNearest(Nodes(), targetHash, p.modulus);
      return buf[idx].name, true;
    }
  }

  method CopyIn(data: array<VNode>, at: nat, nodes: seq<VNode>)
    requires at + |nodes| <= data.Length
    modifies data
    ensures data[..at + |nodes|] == old(data[..at]) + nodes
  {
    ghost var kept := data[..at];
    for i := 0 to |nodes|
      invariant data[..at + i] == kept + nodes[..i]
    {
      data[at + i] := nodes[i];
      assert data[..at + i + 1] == data[..at + i] + [nodes[i]];
    }
    assert nodes[..|nodes|] == nodes;
  }

  method NewInt64Ring(virtualSpots: int, murmur: (string, nat) -> nat) returns (r: HashRing<int64>)
    ensures fresh(r) && r.Valid() && fresh(r.buf) && r.Nodes() == []
    ensures r.p == Params(if virtualSpots <= 0 then 160 else virtualSpots, TWO_64, murmur)
    ensures forall key :: r.target(key) == Uint64(key)
  {
    r := new HashRing<int64>(virtualSpots, TWO_64, murmur, (key: int64) => Uint64(key));
  }

  method NewRing(
    virtualSpots: int, murmur: (string, nat) -> nat, murmurKey: string -> nat)
    returns (r: HashRing<string>)
    ensures fresh(r) && r.Valid() && fresh(r.buf) && r.Nodes() == []
    ensures r.p == Params(if virtualSpots <= 0 then 160 else virtualSpots, TWO_32, murmur)
    ensures r.target == murmurKey
  {
    r := new HashRing<string>(virtualSpots, TWO_32, murmur, murmurKey);
  }

  /** On the int64 ring an owner lies at the least (hash - key) modulo 2^64, for
      negative keys too. */
  lemma Int64Distance(hash: nat, key: int64)
    requires hash < TWO_64
    ensures Distance(hash, Uint64(key) % TWO_64, TWO_64) == (hash - key) % TWO_64
  {
    assert Uint64(key) % TWO_64 == Uint64(key);
    assert hash - Uint64(key) == hash - key || hash - Uint64(key) + TWO_64 == hash - key;
  }

  /** What the filter has done before it looks at `i`. */
  ghost predicate Filtered(a: seq<VNode>, was: seq<VNode>, i: nat, filtered: nat, name: string) {
    && filtered <= i <= |was| <= |a|
    && a[i..|was|] == was[i..]
    && a[..filtered] == Without(was[..i], name)
  }

  lemma FilterStep(a: seq<VNode>, was: seq<VNode>, i: nat, filtered: nat, name: string)
    requires Filtered(a, was, i, filtered, name) && i < |was|
    ensures if a[i].name != name then Filtered(a[filtered := a[i]], was, i + 1, filtered + 1, name)
            else Filtered(a, was, i + 1, filtered, name)
  {
    WithoutPrefix(was, i, name);
    assert a[i] == a[i..|was|][0] && a[i + 1..|was|] == a[i..|was|][1..];
    if a[i].name != name {
      var r := a[filtered := a[i]];
      assert r[..filtered + 1] == a[..filtered] + [a[i]];
      assert r[i + 1..|was|] == a[i + 1..|was|];
    }
  }

  lemma FilterStart(a: seq<VNode>, n: nat, name: string)
    requires n <= |a|
    ensures Filtered(a, a[..n], 0, 0, name)
  {}

  lemma FilterEnd(a: seq<VNode>, was: seq<VNode>, filtered: nat, name: string)
    requires Filtered(a, was, |was|, filtered, name)
    ensures a[..filtered] == Without(was, name)
  {
    assert was[..|was|] == was;
  }

  method Keep(a: array<VNode>, i: nat, filtered: nat)
    requires filtered <= i < a.Length
    modifies a
    ensures a[..] == old(a[..])[filtered := old(a[..])[i]]
  {
    a[filtered] := a[i];
  }

  /** The filter of a removal: it reads and writes one array, as `nodes[:0]` shares
      the memory of `nodes`. */
  method Compact(a: array<VNode>, n: nat, name: string) returns (filtered: nat)
    requires n <= a.Length
    modifies a
    ensures filtered <= n && a[..filtered] == Without(old(a[..n]), name)
  {
    ghost var was, s := a[..n], a[..];
    filtered := 0;
    FilterStart(s, n, name);
    for i := 0 to n
      invariant s == a[..] && Filtered(s, was, i, filtered, name)
    {
      FilterStep(s, was, i, filtered, name);
      if a[i].name != name {
        Keep(a, i, filtered);
        s := s[filtered := s[i]];
        filtered := filtered + 1;
      }
    }
    FilterEnd(s, was, filtered, name);
    assert s[..filtered] == a[..filtered];
  }

  /** The sort interface's Swap. */
  method Swap(a: array<VNode>, i: nat, j: nat)
    requires i < a.Length && j < a.Length
    modifies a
    ensures a[..] == old(a[..])[i := old(a[j])][j := old(a[i])]
  {
    a[i], a[j] := a[j], a[i];
  }

  lemma SwapKeepsElements(s: seq<VNode>, i: nat, j: nat)
    requires i < |s| && j < |s|
    ensures multiset(s[i := s[j]][j := s[i]]) == multiset(s)
  {}

  /** Everything in s[..k + 1] is in order but perhaps the element at `j`, which is
      no larger than what follows it. */
  ghost predicate SortedBut(s: seq<VNode>, k: nat, j: nat)
    requires j <= k < |s|
  {
    && (forall a, b :: 0 <= a < b <= k && a != j && b != j ==> s[a].hash <= s[b].hash)
    && (forall b :: j < b <= k ==> s[j].hash <= s[b].hash)
  }

  lemma SwapStep(s: seq<VNode>, k: nat, j: nat)
    requires 0 < j <= k < |s| && SortedBut(s, k, j) && s[j].hash < s[j - 1].hash
    ensures SortedBut(s[j := s[j - 1]][j - 1 := s[j]], k, j - 1)
    ensures multiset(s[j := s[j - 1]][j - 1 := s[j]]) == multiset(s)
  {
    SwapKeepsElements(s, j, j - 1);
  }

  lemma InPlace(s: seq<VNode>, k: nat, j: nat)
    requires j <= k < |s| && SortedBut(s, k, j) && (j > 0 ==> s[j - 1].hash <= s[j].hash)
    ensures Sorted(s[..k + 1])
  {
    var t := s[..k + 1];
    forall x, y | 0 <= x < y < |t| ensures t[x].hash <= t[y].hash {
      if y == j && x < j - 1 {
        assert s[x].hash <= s[j - 1].hash;
      }
    }
  }

  lemma SwapInPrefix(a: seq<VNode>, n: nat, j: nat)
    requires 0 < j < n <= |a|
    ensures a[j := a[j - 1]][j - 1 := a[j]][..n] == a[..n][j := a[..n][j - 1]][j - 1 := a[..n][j]]
  {}

  lemma LastIsOut(s: seq<VNode>, k: nat)
    requires k < |s| && Sorted(s[..k])
    ensures SortedBut(s, k, k)
  {
    forall x, y | 0 <= x < y < k ensures s[x].hash <= s[y].hash {
      assert s[..k][x].hash <= s[..k][y].hash;
    }
  }

  /** A sort of a[..n] in place through comparisons and swaps. All that is used of
      it is that it leaves a sorted permutation. */
  method SortPrefix(a: array<VNode>, n: nat)
    requires n <= a.Length
    modifies a
    ensures Sorted(a[..n]) && multiset(a[..n]) == multiset(old(a[..n]))
  {
    for k := 0 to n
      invariant Sorted(a[..k])
      invariant multiset(a[..n]) == multiset(old(a[..n]))
    {
      InsertLast(a, n, k);
    }
  }

  /** The elements at `j` and before it exchanged. */
  ghost function Swapped(s: seq<VNode>, j: nat): seq<VNode>
    requires 0 < j < |s|
  {
    s[j := s[j - 1]][j - 1 := s[j]]
  }

  method SwapDown(a: array<VNode>, n: nat, j: nat)
    requires 0 < j < n <= a.Length
    modifies a
    ensures a[..n] == Swapped(old(a[..n]), j)
  {
    SwapInPrefix(a[..], n, j);
    assert a[..][..n] == a[..n];
    Swap(a, j, j - 1);
    assert a[..][..n] == a[..n];
  }

  method InsertLast(a: array<VNode>, n: nat, k: nat)
    requires k < n <= a.Length && Sorted(a[..k])
    modifies a
    ensures Sorted(a[..k + 1]) && multiset(a[..n]) == multiset(old(a[..n]))
  {
    var j := k;
    ghost var s := a[..n];
    assert s[..k] == a[..k];
    LastIsOut(s, k);
    while j > 0 && a[j].hash < a[j - 1].hash
      invariant 0 <= j <= k && a[..n] == s && SortedBut(s, k, j)
      invariant multiset(s) == multiset(old(a[..n]))
    {
      assert s[j] == a[j] && s[j - 1] == a[j - 1];
      SwapStep(s, k, j);
      SwapDown(a, n, j);
      s := Swapped(s, j);
      j := j - 1;
    }
    assert j > 0 ==> s[j] == a[j] && s[j - 1] == a[j - 1];
    InPlace(s, k, j);
    assert s[..k + 1] == a[..k + 1];
  }
}
