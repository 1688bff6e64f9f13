/**
 Removal from the std::set of timers by key (base/xtimer_queue.cpp): the descent
 in the search tree behind it, which trusts an order that triggerTimer may have
 broken.
 */
module TimerTree {
  import opened Timers

  /** The search tree behind the set. */
  datatype Tree = Leaf | Node(left: Tree, timer: Timer, right: Tree) {

    function Elements(): seq<Timer> {
      match this
      case Leaf => []
      case Node(l, t, r) => l.Elements() + [t] + r.Elements()
    }
  }

  /** The place of the first element not before the key, as the descent finds it. */
  function LowerBound(tree: Tree, key: Timer): (p: nat)
    ensures p <= |tree.Elements()|
  {
    match tree
    case Leaf => 0
    case Node(l, t, r) => if Before(t, key) then |l.Elements()| + 1 + LowerBound(r, key) else LowerBound(l, key)
  }

  /** The place of the first element after the key. */
  function UpperBound(tree: Tree, key: Timer): (p: nat)
    ensures p <= |tree.Elements()|
  {
    match tree
    case Leaf => 0
    case Node(l, t, r) => if Before(key, t) then UpperBound(l, key) else |l.Elements()| + 1 + UpperBound(r, key)
  }

  /** equal_range: descend until the key is met, then look for its first and last occurrence below. */
  function EqualRange(tree: Tree, key: Timer): (r: (nat, nat))
    ensures r.0 <= |tree.Elements()| && r.1 <= |tree.Elements()|
  {
    match tree
    case Leaf => (0, 0)
    case Node(l, t, r) =>
      var here := |l.Elements()| + 1;
      if Before(t, key) then
        var (lo, hi) := EqualRange(r, key);
        (here + lo, here + hi)
      else if Before(key, t) then EqualRange(l, key)
      else (LowerBound(l, key), here + UpperBound(r, key))
  }

  /** erase by key: what lies in that range goes. */
  function EraseKey(tree: Tree, key: Timer): seq<Timer> {
    var (lo, hi) := EqualRange(tree, key);
    if lo < hi then tree.Elements()[..lo] + tree.Elements()[hi..] else tree.Elements()
  }

  /** No element stands on the wrong side of the i-th. */
  predicate WellPlaced(q: seq<Timer>, i: nat)
    requires i < |q|
  {
    && (forall j :: 0 <= j < i ==> Before(q[j], q[i]))
    && (forall j :: i < j < |q| ==> Before(q[i], q[j]))
  }

  lemma {:induction false} BoundsOutside(tree: Tree, key: Timer)
    ensures (forall t :: t in tree.Elements() ==> Before(t, key)) ==> LowerBound(tree, key) == |tree.Elements()|
    ensures (forall t :: t in tree.Elements() ==> Before(key, t)) ==> UpperBound(tree, key) == 0
  {
    match tree {
      case Leaf =>
      case Node(l, t, r) =>
        assert t in tree.Elements();
        assert forall u :: u in l.Elements() || u in r.Elements() ==> u in tree.Elements();
        BoundsOutside(l, key);
        BoundsOutside(r, key);
    }
  }

  lemma PlacedLeft(a: seq<Timer>, t: Timer, b: seq<Timer>, i: nat)
    requires i < |a| && WellPlaced(a + [t] + b, i)
    ensures (a + [t] + b)[i] == a[i] && WellPlaced(a, i) && Before(a[i], t)
  {
    var q := a + [t] + b;
    assert forall j :: 0 <= j < |a| ==> q[j] == a[j];
    assert q[|a|] == t;
  }

  lemma PlacedRight(a: seq<Timer>, t: Timer, b: seq<Timer>, i: nat)
    requires i < |b| && WellPlaced(a + [t] + b, |a| + 1 + i)
    ensures (a + [t] + b)[|a| + 1 + i] == b[i] && WellPlaced(b, i) && Before(t, b[i])
  {
    var q := a + [t] + b;
    assert forall j :: 0 <= j < |b| ==> q[|a| + 1 + j] == b[j];
    assert q[|a|] == t;
    forall j | 0 <= j < |b| && j != i
      ensures if j < i then Before(b[j], b[i]) else Before(b[i], b[j])
    {
      assert q[|a| + 1 + j] == b[j];
    }
  }

  lemma PlacedHere(a: seq<Timer>, t: Timer, b: seq<Timer>)
    requires WellPlaced(a + [t] + b, |a|)
    ensures (forall u :: u in a ==> Before(u, t)) && (forall u :: u in b ==> Before(t, u))
  {
    var q := a + [t] + b;
    assert forall j :: 0 <= j < |a| ==> q[j] == a[j];
    forall j | 0 <= j < |b|
      ensures Before(t, b[j])
    {
      assert q[|a| + 1 + j] == b[j];
    }
  }

  lemma BeforeIsStrict(t: Timer, u: Timer)
    ensures !(Before(t, u) && Before(u, t)) && !Before(t, t)
  {
  }

  lemma {:induction false} WellPlacedFound(tree: Tree, i: nat)
    requires i < |tree.Elements()| && WellPlaced(tree.Elements(), i)
    ensures EqualRange(tree, tree.Elements()[i]) == (i, i + 1)
  {
    hide WellPlaced, Before, LowerBound, UpperBound;
    match tree {
      case Node(l, t, r) =>
        var a, b := l.Elements(), r.Elements();
        assert tree.Elements() == a + [t] + b;
        BeforeIsStrict(tree.Elements()[i], t);
        if i < |a| {
          PlacedLeft(a, t, b, i);
          WellPlacedFound(l, i);
        } else if i > |a| {
          PlacedRight(a, t, b, i - |a| - 1);
          WellPlacedFound(r, i - |a| - 1);
        } else {
          PlacedHere(a, t, b);
          BoundsOutside(l, t);
          BoundsOutside(r, t);
        }
    }
  }

  // which elements a removal looks at, in a given tree

  function Shifted(s: set<nat>, k: nat): set<nat> {
    set x | x in s :: x + k
  }

  /** The way down along the right edge, and along the left one. */
  function RightEdge(tree: Tree): set<nat> {
    match tree
    case Leaf => {}
    case Node(l, _, r) => {|l.Elements()|} + Shifted(RightEdge(r), |l.Elements()| + 1)
  }

  function LeftEdge(tree: Tree): set<nat> {
    match tree
    case Leaf => {}
    case Node(l, _, _) => {|l.Elements()|} + LeftEdge(l)
  }

  /** The elements above the i-th, and those next to it on the edges of its two subtrees. */
  function Met(tree: Tree, i: nat): set<nat>
    requires i < |tree.Elements()|
  {
    match tree
    case Node(l, _, r) =>
      var n := |l.Elements()|;
      if i < n then {n} + Met(l, i)
      else if i > n then {n} + Shifted(Met(r, i - n - 1), n + 1)
      else RightEdge(l) + Shifted(LeftEdge(r), n + 1)
  }

  predicate AllBefore(q: seq<Timer>, s: set<nat>, key: Timer) {
    forall j :: j in s ==> j < |q| && Before(q[j], key)
  }

  predicate AllAfter(q: seq<Timer>, s: set<nat>, key: Timer) {
    forall j :: j in s ==> j < |q| && Before(key, q[j])
  }

  /** Each of these elements stands on its right side of the i-th. */
  predicate OnRightSide(q: seq<Timer>, s: set<nat>, i: nat)
    requires i < |q|
  {
    forall j :: j in s ==> j < |q| && if j < i then Before(q[j], q[i]) else i < j && Before(q[i], q[j])
  }

  lemma ShiftIn(s: set<nat>, k: nat, x: nat)
    requires x in s
    ensures x + k in Shifted(s, k)
  {
  }

  lemma ShiftOut(s: set<nat>, k: nat, y: nat)
    requires y in Shifted(s, k)
    ensures y >= k && y - k in s
  {
  }

  lemma Behind(a: seq<Timer>, t: Timer, b: seq<Timer>, j: nat)
    requires j < |b|
    ensures (a + [t] + b)[j + (|a| + 1)] == b[j]
  {
  }

  lemma InFront(a: seq<Timer>, t: Timer, b: seq<Timer>, j: nat)
    requires j <= |a|
    ensures (a + [t] + b)[j] == if j < |a| then a[j] else t
  {
  }

  lemma EdgeRight(a: seq<Timer>, t: Timer, b: seq<Timer>, s: set<nat>, key: Timer)
    ensures AllBefore(a + [t] + b, {|a|} + Shifted(s, |a| + 1), key) <==> Before(t, key) && AllBefore(b, s, key)
  {
    hide Before, Shifted;
    var q, k := a + [t] + b, |a| + 1;
    var all := {|a|} + Shifted(s, k);
    assert |a| in all;
    InFront(a, t, b, |a|);
    if AllBefore(q, all, key) {
      forall j | j in s ensures j < |b| && Before(b[j], key) {
        ShiftIn(s, k, j);
        assert j + k in all;
        Behind(a, t, b, j);
      }
    }
    if Before(t, key) && AllBefore(b, s, key) {
      forall y | y in all ensures y < |q| && Before(q[y], key) {
        if y != |a| {
          ShiftOut(s, k, y);
          Behind(a, t, b, y - k);
        }
      }
    }
  }

  lemma EdgeLeft(a: seq<Timer>, t: Timer, b: seq<Timer>, s: set<nat>, key: Timer)
    requires forall j :: j in s ==> j < |a|
    ensures AllAfter(a + [t] + b, {|a|} + s, key) <==> Before(key, t) && AllAfter(a, s, key)
  {
    hide Before;
    var q := a + [t] + b;
    var all := {|a|} + s;
    assert |a| in all;
    InFront(a, t, b, |a|);
    if AllAfter(q, all, key) {
      forall j | j in s ensures Before(key, a[j]) {
        assert j in all;
        InFront(a, t, b, j);
      }
    }
    if Before(key, t) && AllAfter(a, s, key) {
      forall y | y in all ensures y < |q| && Before(key, q[y]) {
        InFront(a, t, b, y);
      }
    }
  }

  lemma {:induction false} RightEdgeDecides(tree: Tree, key: Timer)
    ensures LowerBound(tree, key) == |tree.Elements()| <==> AllBefore(tree.Elements(), RightEdge(tree), key)
  {
    hide Before, AllBefore, Shifted;
    match tree {
      case Leaf => NoneBefore([], key);
      case Node(l, t, r) =>
        assert tree.Elements() == l.Elements() + [t] + r.Elements();
        EdgeRight(l.Elements(), t, r.Elements(), RightEdge(r), key);
        RightEdgeDecides(r, key);
    }
  }

  lemma NoneBefore(q: seq<Timer>, key: Timer)
    ensures AllBefore(q, {}, key) && AllAfter(q, {}, key)
  {
  }

  lemma {:induction false} LeftEdgeDecides(tree: Tree, key: Timer)
    ensures UpperBound(tree, key) == 0 <==> AllAfter(tree.Elements(), LeftEdge(tree), key)
  {
    hide Before, AllAfter;
    match tree {
      case Leaf => NoneBefore([], key);
      case Node(l, t, r) =>
        assert tree.Elements() == l.Elements() + [t] + r.Elements();
        LeftEdgeInside(l);
        EdgeLeft(l.Elements(), t, r.Elements(), LeftEdge(l), key);
        LeftEdgeDecides(l, key);
    }
  }

  lemma {:induction false} LeftEdgeInside(tree: Tree)
    ensures forall j :: j in LeftEdge(tree) ==> j < |tree.Elements()|
  {
    match tree {
      case Leaf =>
      case Node(l, _, _) => LeftEdgeInside(l);
    }
  }

  lemma {:induction false} RightEdgeInside(tree: Tree)
    ensures forall j :: j in RightEdge(tree) ==> j < |tree.Elements()|
  {
    match tree {
      case Leaf =>
      case Node(l, _, r) =>
        RightEdgeInside(r);
        ShiftedInside(RightEdge(r), |l.Elements()| + 1, |r.Elements()|);
    }
  }

  lemma ShiftedInside(s: set<nat>, k: nat, n: nat)
    requires forall j :: j in s ==> j < n
    ensures forall y :: y in Shifted(s, k) ==> k <= y < n + k
  {
  }

  lemma ShiftedAvoids(s: set<nat>, k: nat, i: nat)
    requires i !in s
    ensures i + k !in Shifted(s, k)
  {
  }

  lemma {:induction false} MetInside(tree: Tree, i: nat)
    requires i < |tree.Elements()|
    ensures i !in Met(tree, i) && forall j :: j in Met(tree, i) ==> j < |tree.Elements()|
  {
    hide Shifted, RightEdge, LeftEdge;
    match tree {
      case Node(l, _, r) =>
        var n := |l.Elements()|;
        assert |tree.Elements()| == n + 1 + |r.Elements()|;
        if i < n {
          MetInside(l, i);
        } else if i > n {
          MetInside(r, i - n - 1);
          ShiftedInside(Met(r, i - n - 1), n + 1, |r.Elements()|);
          ShiftedAvoids(Met(r, i - n - 1), n + 1, i - n - 1);
        } else {
          RightEdgeInside(l);
          LeftEdgeInside(r);
          ShiftedInside(LeftEdge(r), n + 1, |r.Elements()|);
        }
    }
  }

  lemma SideLeft(a: seq<Timer>, t: Timer, b: seq<Timer>, i: nat, s: set<nat>)
    requires i < |a| && forall j :: j in s ==> j < |a|
    ensures var q := a + [t] + b;
            q[i] == a[i] && (OnRightSide(q, {|a|} + s, i) <==> Before(a[i], t) && OnRightSide(a, s, i))
  {
    hide Before;
    var q := a + [t] + b;
    var all := {|a|} + s;
    assert |a| in all;
    InFront(a, t, b, |a|);
    InFront(a, t, b, i);
    if OnRightSide(q, all, i) {
      forall j | j in s
        ensures if j < i then Before(a[j], a[i]) else i < j && Before(a[i], a[j])
      {
        assert j in all;
        InFront(a, t, b, j);
      }
    }
    if Before(a[i], t) && OnRightSide(a, s, i) {
      forall y | y in all
        ensures y < |q| && if y < i then Before(q[y], q[i]) else i < y && Before(q[i], q[y])
      {
        InFront(a, t, b, y);
      }
    }
  }

  lemma SideRight(a: seq<Timer>, t: Timer, b: seq<Timer>, i: nat, s: set<nat>)
    requires i < |b| && forall j :: j in s ==> j < |b|
    ensures var q, k := a + [t] + b, |a| + 1;
            && q[i + k] == b[i]
            && (OnRightSide(q, {|a|} + Shifted(s, k), i + k) <==> Before(t, b[i]) && OnRightSide(b, s, i))
  {
    hide Before, Shifted;
    var q, k := a + [t] + b, |a| + 1;
    var all := {|a|} + Shifted(s, k);
    assert |a| in all;
    InFront(a, t, b, |a|);
    Behind(a, t, b, i);
    if OnRightSide(q, all, i + k) {
      forall j | j in s
        ensures if j < i then Before(b[j], b[i]) else i < j && Before(b[i], b[j])
      {
        ShiftIn(s, k, j);
        assert j + k in all;
        Behind(a, t, b, j);
      }
    }
    if Before(t, b[i]) && OnRightSide(b, s, i) {
      forall y | y in all
        ensures y < |q| && if y < i + k then Before(q[y], q[i + k]) else i + k < y && Before(q[i + k], q[y])
      {
        if y != |a| {
          ShiftOut(s, k, y);
          Behind(a, t, b, y - k);
        }
      }
    }
  }

  lemma SideHere(a: seq<Timer>, t: Timer, b: seq<Timer>, s: set<nat>, u: set<nat>)
    requires (forall j :: j in s ==> j < |a|) && (forall j :: j in u ==> j < |b|)
    ensures OnRightSide(a + [t] + b, s + Shifted(u, |a| + 1), |a|) <==> AllBefore(a, s, t) && AllAfter(b, u, t)
  {
    hide Before, Shifted;
    var q, k := a + [t] + b, |a| + 1;
    var all := s + Shifted(u, k);
    InFront(a, t, b, |a|);
    if OnRightSide(q, all, |a|) {
      forall j | j in s ensures Before(a[j], t) {
        assert j in all;
        InFront(a, t, b, j);
      }
      forall j | j in u ensures Before(t, b[j]) {
        ShiftIn(u, k, j);
        assert j + k in all;
        Behind(a, t, b, j);
      }
    }
    if AllBefore(a, s, t) && AllAfter(b, u, t) {
      forall y | y in all
        ensures y < |q| && if y < |a| then Before(q[y], q[|a|]) else |a| < y && Before(q[|a|], q[y])
      {
        if y in s {
          InFront(a, t, b, y);
        } else {
          ShiftOut(u, k, y);
          Behind(a, t, b, y - k);
        }
      }
    }
  }

  /** In a given tree the removal of the i-th timer is exact iff all elements it meets are on their right side. */
  lemma {:induction false} ErasesExactlyIff(tree: Tree, i: nat)
    requires i < |tree.Elements()|
    ensures EqualRange(tree, tree.Elements()[i]) == (i, i + 1) <==> OnRightSide(tree.Elements(), Met(tree, i), i)
  {
    hide Before, OnRightSide, AllBefore, AllAfter, Shifted, LowerBound, UpperBound;
    match tree {
      case Node(l, t, r) =>
        var a, b := l.Elements(), r.Elements();
        assert tree.Elements() == a + [t] + b;
        BeforeIsStrict(tree.Elements()[i], t);
        if i < |a| {
          MetInside(l, i);
          SideLeft(a, t, b, i, Met(l, i));
          ErasesExactlyIff(l, i);
        } else if i > |a| {
          var j := i - |a| - 1;
          MetInside(r, j);
          SideRight(a, t, b, j, Met(r, j));
          ErasesExactlyIff(r, j);
        } else {
          RightEdgeInside(l);
          LeftEdgeInside(r);
          SideHere(a, t, b, RightEdge(l), LeftEdge(r));
          RightEdgeDecides(l, t);
          LeftEdgeDecides(r, t);
        }
    }
  }

  /** Some tree over the sequence. */
  function Chain(q: seq<Timer>): (tree: Tree)
    ensures tree.Elements() == q
  {
    if q == [] then Leaf else Node(Leaf, q[0], Chain(q[1..]))
  }

  function RootedAt(q: seq<Timer>, j: nat): (tree: Tree)
    requires j < |q|
    ensures tree.Elements() == q
  {
    Node(Chain(q[..j]), q[j], Chain(q[j + 1..]))
  }

  /** An element on the wrong side, at the root, sends the search for the i-th astray. */
  lemma AstrayAt(q: seq<Timer>, i: nat, j: nat)
    requires i < |q| && j < |q|
    requires if j < i then !Before(q[j], q[i]) else i < j && !Before(q[i], q[j])
    ensures EqualRange(RootedAt(q, j), q[i]) != (i, i + 1)
  {
  }

  ghost predicate FoundInEveryTree(q: seq<Timer>, i: nat)
    requires i < |q|
  {
    forall tree: Tree :: tree.Elements() == q ==> EqualRange(tree, q[i]) == (i, i + 1)
  }

  /** Removing a timer takes out exactly it in trees of every shape iff no timer stands on the wrong side of it. */
  lemma RemovesExactlyIff(q: seq<Timer>, i: nat)
    requires i < |q|
    ensures FoundInEveryTree(q, i) <==> WellPlaced(q, i)
  {
    if WellPlaced(q, i) {
      forall tree: Tree | tree.Elements() == q
        ensures EqualRange(tree, q[i]) == (i, i + 1)
      {
        WellPlacedFound(tree, i);
      }
    } else {
      var j :| 0 <= j < |q| && if j < i then !Before(q[j], q[i]) else i < j && !Before(q[i], q[j]);
      AstrayAt(q, i, j);
      var tree := RootedAt(q, j);
      assert tree.Elements() == q && EqualRange(tree, q[i]) != (i, i + 1);
    }
  }

  lemma OrderedWellPlaced(q: seq<Timer>, i: nat)
    requires Ordered(q) && i < |q|
    ensures WellPlaced(q, i)
  {
  }

  /** In particular from every ordered queue. */
  lemma OrderedErasesExactly(tree: Tree, i: nat)
    requires i < |tree.Elements()| && Ordered(tree.Elements())
    ensures EraseKey(tree, tree.Elements()[i]) == EraseAt(tree.Elements(), i)
  {
    hide Ordered, WellPlaced, EqualRange, Tree.Elements;
    OrderedWellPlaced(tree.Elements(), i);
    WellPlacedFound(tree, i);
  }
}
