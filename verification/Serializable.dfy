/** The manifest walk of `assertSerializable`: depth first, over any heap of shared objects. */
module Serializable {

  /** JavaScript values by what the walk asks of them; objects and arrays live on the heap. */
  datatype Value = Undefined | Function | Symbol | BigInt | NonFiniteNumber | Plain | Ref(r: nat)

  /** Each object or array with the values it visits, in order. */
  type Heap = map<nat, seq<Value>>

  predicate NonJson(v: Value) {
    !v.Plain? && !v.Ref?
  }

  ghost predicate Closed(heap: Heap) {
    forall r, i | r in heap && 0 <= i < |heap[r]| && heap[r][i].Ref? :: heap[r][i].r in heap
  }

  // ----- Paths -----

  /** `p` names the objects along one way down from `v`. */
  ghost predicate IsPath(heap: Heap, v: Value, p: seq<nat>) {
    && (forall i | 0 <= i < |p| :: p[i] in heap)
    && (p != [] ==> v == Ref(p[0]))
    && (forall i | 0 < i < |p| :: Ref(p[i]) in heap[p[i - 1]])
  }

  ghost predicate Repeats(p: seq<nat>) {
    exists i, j | 0 <= i < j < |p| :: p[i] == p[j]
  }

  ghost predicate HoldsNonJson(heap: Heap, r: nat)
    requires r in heap
  {
    exists v | v in heap[r] :: NonJson(v)
  }

  /** What the walk from `v` must not meet, given the objects already on the current path. */
  ghost predicate Clean(heap: Heap, v: Value, seen: set<nat>) {
    && !NonJson(v)
    && forall p | IsPath(heap, v, p) && p != [] ::
         !Repeats(p) && (forall i | 0 <= i < |p| :: p[i] !in seen) && !HoldsNonJson(heap, p[|p| - 1])
  }

  lemma RepeatsWithFirst(r: nat, p: seq<nat>)
    ensures Repeats([r] + p) <==> Repeats(p) || r in p
  {
    var longer := [r] + p;
    assert forall i | 0 <= i < |p| :: p[i] == longer[i + 1];
    if Repeats(longer) {
      var i, j :| 0 <= i < j < |longer| && longer[i] == longer[j];
      assert longer[j] == p[j - 1];
      assert i > 0 ==> longer[i] == p[i - 1];
    }
    if r in p {
      var j :| 0 <= j < |p| && p[j] == r;
      assert longer[0] == longer[j + 1];
    }
    if Repeats(p) {
      var i, j :| 0 <= i < j < |p| && p[i] == p[j];
      assert longer[i + 1] == longer[j + 1];
    }
  }

  /** The two things the walk can complain about. */
  ghost predicate MeetsNonJson(heap: Heap, v: Value) {
    NonJson(v) || exists p :: IsPath(heap, v, p) && p != [] && HoldsNonJson(heap, p[|p| - 1])
  }

  ghost predicate ComesBack(heap: Heap, v: Value, seen: set<nat>) {
    exists p :: IsPath(heap, v, p) && p != [] && (Repeats(p) || p[|p| - 1] in seen)
  }

  lemma ComplaintFromChild(heap: Heap, r: nat, seen: set<nat>, child: Value)
    requires r in heap && child in heap[r]
    ensures MeetsNonJson(heap, child) ==> MeetsNonJson(heap, Ref(r))
    ensures ComesBack(heap, child, seen + {r}) ==> ComesBack(heap, Ref(r), seen)
  {
    assert IsPath(heap, Ref(r), [r]);
    assert NonJson(child) ==> HoldsNonJson(heap, r);
    forall p | IsPath(heap, child, p) && p != []
      ensures IsPath(heap, Ref(r), [r] + p) && ([r] + p)[|p|] == p[|p| - 1]
      ensures Repeats([r] + p) <==> Repeats(p) || r in p
    {
      assert forall i | 0 <= i < |p| :: ([r] + p)[i + 1] == p[i];
      RepeatsWithFirst(r, p);
    }
    if MeetsNonJson(heap, child) && !NonJson(child) {
      var p :| IsPath(heap, child, p) && p != [] && HoldsNonJson(heap, p[|p| - 1]);
      assert HoldsNonJson(heap, ([r] + p)[|[r] + p| - 1]);
    }
    if ComesBack(heap, child, seen + {r}) {
      var p :| IsPath(heap, child, p) && p != [] && (Repeats(p) || p[|p| - 1] in seen + {r});
      assert IsPath(heap, Ref(r), [r] + p);
    }
  }

  lemma CleanChild(heap: Heap, r: nat, seen: set<nat>, child: Value)
    requires r in heap && Clean(heap, Ref(r), seen) && child in heap[r]
    ensures Clean(heap, child, seen + {r})
  {
    assert IsPath(heap, Ref(r), [r]);
    assert !HoldsNonJson(heap, r);
    forall p | IsPath(heap, child, p) && p != []
      ensures !Repeats(p) && (forall i | 0 <= i < |p| :: p[i] !in seen + {r}) && !HoldsNonJson(heap, p[|p| - 1])
    {
      var longer := [r] + p;
      assert IsPath(heap, Ref(r), longer);
      assert forall i | 0 <= i < |p| :: longer[i + 1] == p[i];
      assert longer[|longer| - 1] == p[|p| - 1];
      RepeatsWithFirst(r, p);
    }
  }

  lemma CleanFromChildren(heap: Heap, r: nat, seen: set<nat>)
    requires r in heap && r !in seen
    requires forall child | child in heap[r] :: Clean(heap, child, seen + {r})
    ensures Clean(heap, Ref(r), seen)
  {
    forall p | IsPath(heap, Ref(r), p) && p != []
      ensures !Repeats(p) && (forall i | 0 <= i < |p| :: p[i] !in seen) && !HoldsNonJson(heap, p[|p| - 1])
    {
      var rest := p[1..];
      if rest != [] {
        assert Ref(p[1]) in heap[p[0]];
        assert IsPath(heap, Ref(p[1]), rest);
        assert Clean(heap, Ref(p[1]), seen + {r});
        assert rest[|rest| - 1] == p[|p| - 1];
        assert p == [r] + rest;
        RepeatsWithFirst(r, rest);
      }
    }
  }

  // ----- The walk -----

  datatype Verdict = Accepted | NotSerializable | Circular

  class Walk {
    const heap: Heap
    var seen: set<nat>

    constructor (heap: Heap)
      ensures this.heap == heap && seen == {}
    {
      this.heap := heap;
      seen := {};
    }

    /** Accepts exactly the clean values, and puts `seen` back whenever it accepts. */
    method Visit(v: Value) returns (verdict: Verdict)
      requires Closed(heap) && seen <= heap.Keys
      requires v.Ref? ==> v.r in heap
      modifies this
      ensures verdict.Accepted? <==> Clean(heap, v, old(seen))
      ensures verdict.Accepted? ==> seen == old(seen)
      ensures verdict.NotSerializable? ==> MeetsNonJson(heap, v)
      ensures verdict.Circular? ==> ComesBack(heap, v, old(seen))
      decreases heap.Keys - seen
    {
      if NonJson(v) { return NotSerializable; }
      if v.Plain? { return Accepted; }
      if v.r in seen {
        assert IsPath(heap, v, [v.r]) && [v.r][0] in seen;
        return Circular;
      }
      ghost var outer := seen;
      seen := seen + {v.r};
      var children := heap[v.r];
      var i := 0;
      while i < |children|
        invariant 0 <= i <= |children|
        invariant seen == outer + {v.r}
        invariant forall j | 0 <= j < i :: Clean(heap, children[j], outer + {v.r})
      {
        verdict := Visit(children[i]);
        if !verdict.Accepted? {
          if Clean(heap, v, outer) { CleanChild(heap, v.r, outer, children[i]); }
          ComplaintFromChild(heap, v.r, outer, children[i]);
          return;
        }
        i := i + 1;
      }
      CleanFromChildren(heap, v.r, outer);
      seen := seen - {v.r};
      assert seen == outer;
      return Accepted;
    }
  }

  // ----- What acceptance means -----

  ghost predicate Reaches(heap: Heap, v: Value, r: nat) {
    exists p :: IsPath(heap, v, p) && p != [] && p[|p| - 1] == r
  }

  ghost predicate OnCycle(heap: Heap, r: nat) {
    exists p :: IsPath(heap, Ref(r), p) && |p| > 1 && p[|p| - 1] == r
  }

  ghost predicate Serializable(heap: Heap, root: Value) {
    && !NonJson(root)
    && forall r | r in heap && Reaches(heap, root, r) :: !HoldsNonJson(heap, r) && !OnCycle(heap, r)
  }

  lemma CycleRepeats(heap: Heap, root: Value, r: nat)
    requires Reaches(heap, root, r) && OnCycle(heap, r)
    ensures exists p :: IsPath(heap, root, p) && p != [] && Repeats(p)
  {
    var p :| IsPath(heap, root, p) && p != [] && p[|p| - 1] == r;
    var q :| IsPath(heap, Ref(r), q) && |q| > 1 && q[|q| - 1] == r;
    var around := p + q[1..];
    forall i | 0 < i < |around| ensures Ref(around[i]) in heap[around[i - 1]] {
      if i >= |p| {
        assert around[i] == q[i - |p| + 1] && around[i - 1] == q[i - |p|];
      }
    }
    assert IsPath(heap, root, around);
    assert around[|p| - 1] == around[|around| - 1];
  }

  lemma RepeatIsCycle(heap: Heap, root: Value, p: seq<nat>)
    requires IsPath(heap, root, p) && Repeats(p)
    ensures exists r :: r in heap && Reaches(heap, root, r) && OnCycle(heap, r)
  {
    var i, j :| 0 <= i < j < |p| && p[i] == p[j];
    var there, round := p[..i + 1], p[i..j + 1];
    assert IsPath(heap, root, there) && there[|there| - 1] == p[i];
    assert IsPath(heap, Ref(p[i]), round) && round[|round| - 1] == p[i];
    assert Reaches(heap, root, p[i]) && OnCycle(heap, p[i]);
  }

  lemma CleanIffSerializable(heap: Heap, root: Value)
    ensures Clean(heap, root, {}) <==> Serializable(heap, root)
  {
    if Clean(heap, root, {}) {
      forall r | r in heap && Reaches(heap, root, r) ensures !HoldsNonJson(heap, r) && !OnCycle(heap, r) {
        if OnCycle(heap, r) { CycleRepeats(heap, root, r); }
      }
    }
    if Serializable(heap, root) {
      forall p | IsPath(heap, root, p) && p != []
        ensures !Repeats(p) && !HoldsNonJson(heap, p[|p| - 1])
      {
        if Repeats(p) { RepeatIsCycle(heap, root, p); }
        assert Reaches(heap, root, p[|p| - 1]);
      }
    }
  }

  /** The walk returns on every finite heap. It accepts exactly when nothing reachable is outside
      JSON and no reachable object lies on a cycle, so shared objects are fine; its complaint is
      about something that is there. */
  method AssertSerializable(heap: Heap, root: Value) returns (verdict: Verdict)
    requires Closed(heap) && (root.Ref? ==> root.r in heap)
    ensures verdict.Accepted? <==> Serializable(heap, root)
    ensures verdict.NotSerializable? ==>
            NonJson(root) || exists r :: r in heap && Reaches(heap, root, r) && HoldsNonJson(heap, r)
    ensures verdict.Circular? ==> exists r :: r in heap && Reaches(heap, root, r) && OnCycle(heap, r)
  {
    var walk := new Walk(heap);
    verdict := walk.Visit(root);
    CleanIffSerializable(heap, root);
    if verdict.NotSerializable? && !NonJson(root) {
      ghost var p :| IsPath(heap, root, p) && p != [] && HoldsNonJson(heap, p[|p| - 1]);
      assert Reaches(heap, root, p[|p| - 1]);
    }
    if verdict.Circular? {
      ghost var p :| IsPath(heap, root, p) && p != [] && Repeats(p);
      RepeatIsCycle(heap, root, p);
    }
  }
}
