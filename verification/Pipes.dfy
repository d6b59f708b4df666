/** A chain of bounded queues: what it carries and how far that has to go. */
module Pipes {
  import opened Payloads
  import opened Multiples

  /** First the queue that is written to, last the one that is read from; in
      each queue the oldest payload first. */
  type Pipe = seq<seq<Payload>>

  /** Everything under way, oldest first. */
  function Flat(p: Pipe): seq<Payload>
  {
    if p == [] then [] else Flat(p[1..]) + p[0]
  }

  /** How many hops and reads are still to be made. */
  function Cost(p: Pipe): nat
  {
    if p == [] then 0 else |p[0]| * |p| + Cost(p[1..])
  }

  predicate Within(p: Pipe, caps: seq<nat>)
  {
    |p| == |caps| && forall i :: 0 <= i < |p| ==> |p[i]| <= caps[i]
  }

  function Push(p: Pipe, x: Payload): Pipe
    requires p != []
  {
    p[0 := p[0] + [x]]
  }

  /** Queue `i` hands its oldest payload on. */
  function Hop(p: Pipe, i: nat): Pipe
    requires i + 1 < |p| && p[i] != []
  {
    p[i := p[i][1..]][i + 1 := p[i + 1] + [p[i][0]]]
  }

  function Pop(p: Pipe): Pipe
    requires p != [] && p[|p| - 1] != []
  {
    p[|p| - 1 := p[|p| - 1][1..]]
  }

  lemma Unfolds(q: seq<Payload>, rest: Pipe)
    ensures Flat([q] + rest) == Flat(rest) + q && Cost([q] + rest) == |q| * (1 + |rest|) + Cost(rest)
  {
    assert ([q] + rest)[1..] == rest;
  }

  lemma PushAdds(p: Pipe, x: Payload)
    requires p != []
    ensures Flat(Push(p, x)) == Flat(p) + [x] && Cost(Push(p, x)) == Cost(p) + |p|
  {
    hide Flat, Cost;
    assert p == [p[0]] + p[1..];
    assert Push(p, x) == [p[0] + [x]] + p[1..];
    PushFirst(p[0], x, p[1..]);
  }

  lemma PushFirst(q: seq<Payload>, x: Payload, rest: Pipe)
    ensures Flat([q + [x]] + rest) == Flat([q] + rest) + [x]
    ensures Cost([q + [x]] + rest) == Cost([q] + rest) + 1 + |rest|
  {
    hide Flat, Cost;
    Unfolds(q, rest);
    Unfolds(q + [x], rest);
    OneMore(q, x, 1 + |rest|);
    assert Flat(rest) + (q + [x]) == Flat(rest) + q + [x];
  }

  lemma OneMore(q: seq<Payload>, x: Payload, n: nat)
    ensures |q + [x]| * n == |q| * n + n
  {
    Next(|q|, n);
  }

  /** What is read is the oldest payload under way. */
  lemma {:induction false} PopTakes(p: Pipe)
    requires p != [] && p[|p| - 1] != []
    ensures Flat(p) == [p[|p| - 1][0]] + Flat(Pop(p)) && Cost(p) == Cost(Pop(p)) + 1
  {
    hide Flat, Cost;
    assert p == [p[0]] + p[1..];
    Unfolds(p[0], p[1..]);
    if |p| == 1 {
      var q := p[0];
      assert p[1..] == [] && Pop(p) == [q[1..]] + [];
      Unfolds(q[1..], []);
      Nothing();
      assert q == [q[0]] + q[1..];
    } else {
      PopTakes(p[1..]);
      assert Pop(p) == [p[0]] + Pop(p[1..]);
      Unfolds(p[0], Pop(p[1..]));
      assert [p[|p| - 1][0]] + Flat(Pop(p[1..])) + p[0] == [p[|p| - 1][0]] + (Flat(Pop(p[1..])) + p[0]);
    }
  }

  lemma Nothing()
    ensures Flat([]) == [] && Cost([]) == 0
  {}

  /** A hop changes neither the payloads nor their order. */
  lemma {:induction false} HopKeeps(p: Pipe, i: nat)
    requires i + 1 < |p| && p[i] != []
    ensures Flat(Hop(p, i)) == Flat(p) && Cost(p) == Cost(Hop(p, i)) + 1
  {
    hide Flat, Cost;
    assert p == [p[0]] + p[1..];
    Unfolds(p[0], p[1..]);
    if i > 0 {
      HopKeeps(p[1..], i - 1);
      assert Hop(p, i) == [p[0]] + Hop(p[1..], i - 1);
      Unfolds(p[0], Hop(p[1..], i - 1));
    } else {
      FirstHop(p[0], p[1], p[2..]);
      assert p == [p[0], p[1]] + p[2..];
      assert Hop(p, 0) == [p[0][1..], p[1] + [p[0][0]]] + p[2..];
    }
  }

  lemma FirstHop(a: seq<Payload>, b: seq<Payload>, rest: Pipe)
    requires a != []
    ensures Flat([a[1..], b + [a[0]]] + rest) == Flat([a, b] + rest)
    ensures Cost([a, b] + rest) == Cost([a[1..], b + [a[0]]] + rest) + 1
  {
    hide Flat, Cost;
    var b' := b + [a[0]];
    Unfolds(a, [b] + rest);
    Unfolds(b, rest);
    Unfolds(a[1..], [b'] + rest);
    Unfolds(b', rest);
    assert [a, b] + rest == [a] + ([b] + rest);
    assert [a[1..], b'] + rest == [a[1..]] + ([b'] + rest);
    assert Flat(rest) + b + a == Flat(rest) + b' + a[1..];
    var n := |rest|;
    Next(|a| - 1, n + 2);
    Next(|b|, n + 1);
  }

  lemma {:induction false} EmptyIff(p: Pipe)
    ensures Flat(p) == [] <==> forall i :: 0 <= i < |p| ==> p[i] == []
    ensures Flat(p) == [] <==> Cost(p) == 0
  {
    hide Flat, Cost;
    if p == [] {
      Nothing();
    } else {
      EmptyIff(p[1..]);
      assert p == [p[0]] + p[1..];
      Unfolds(p[0], p[1..]);
      Positive(|p[0]|, |p|);
      assert forall i :: 0 < i < |p| ==> p[i] == p[1..][i - 1];
    }
  }

  lemma Positive(x: nat, y: nat)
    requires y > 0
    ensures x * y >= 0 && (x * y == 0 <==> x == 0)
  {
  }

  /** The last queue that holds something; all after it are empty. */
  lemma {:induction false} LastFull(p: Pipe) returns (i: nat)
    requires Flat(p) != []
    ensures i < |p| && p[i] != [] && forall j :: i < j < |p| ==> p[j] == []
  {
    EmptyIff(p);
    i := LastFullBelow(p, |p|);
  }

  lemma {:induction false} LastFullBelow(p: Pipe, n: nat) returns (i: nat)
    requires n <= |p| && (exists k :: 0 <= k < n && p[k] != [])
    ensures i < n && p[i] != [] && forall j :: i < j < n ==> p[j] == []
  {
    if p[n - 1] != [] {
      i := n - 1;
    } else {
      i := LastFullBelow(p, n - 1);
    }
  }

  /** Where something is under way, it can move on or be read. */
  lemma SomethingMoves(p: Pipe, caps: seq<nat>) returns (i: nat)
    requires Within(p, caps) && Flat(p) != [] && forall k :: 0 <= k < |caps| ==> caps[k] >= 1
    ensures i < |p| && p[i] != [] && (i + 1 < |p| ==> |p[i + 1]| < caps[i + 1])
  {
    hide Flat;
    i := LastFull(p);
  }
}
