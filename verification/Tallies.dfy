/** Counting threads by their control state. Every interleaving model in this project keeps one
    control state per thread and states its conservation laws over these counts. */
module Tallies {

  ghost function Where<P>(pc: map<nat, P>, p: P -> bool): set<nat> {
    set t | t in pc && p(pc[t])
  }

  ghost function Count<P>(pc: map<nat, P>, p: P -> bool): nat {
    |Where(pc, p)|
  }

  function Bit(b: bool): nat { if b then 1 else 0 }

  /** Moving one thread changes a count by what the thread leaves and what it enters. */
  lemma Move<P>(pc: map<nat, P>, t: nat, q: P, p: P -> bool)
    requires t in pc
    ensures Count(pc[t := q], p) == Count(pc, p) - Bit(p(pc[t])) + Bit(p(q))
  {
    assert Where(pc, p) - {t} == Where(pc[t := q], p) - {t};
    Without(Where(pc, p), t);
    Without(Where(pc[t := q], p), t);
  }

  lemma Without(a: set<nat>, t: nat)
    ensures |a| == |a - {t}| + Bit(t in a)
  {
    if t in a {
      assert a == (a - {t}) + {t};
    } else {
      assert a == a - {t};
    }
  }

  lemma NonZero<P>(pc: map<nat, P>, t: nat, p: P -> bool)
    requires t in pc && p(pc[t])
    ensures Count(pc, p) >= 1
  {
    assert t in Where(pc, p);
  }

  lemma Zero<P>(pc: map<nat, P>, p: P -> bool)
    requires forall t | t in pc :: !p(pc[t])
    ensures Count(pc, p) == 0
  {
    assert Where(pc, p) == {};
  }

  /** Counts over a disjoint pair of predicates add up. */
  lemma Split<P>(pc: map<nat, P>, p: P -> bool, a: P -> bool, b: P -> bool)
    requires forall t | t in pc :: (p(pc[t]) <==> a(pc[t]) || b(pc[t])) && !(a(pc[t]) && b(pc[t]))
    ensures Count(pc, p) == Count(pc, a) + Count(pc, b)
  {
    assert Where(pc, p) == Where(pc, a) + Where(pc, b);
    assert Where(pc, a) !! Where(pc, b);
  }

  lemma Within<P>(pc: map<nat, P>, p: P -> bool, q: P -> bool)
    requires forall t | t in pc && p(pc[t]) :: q(pc[t])
    ensures Count(pc, p) <= Count(pc, q)
  {
    Subset(Where(pc, p), Where(pc, q));
  }

  lemma AtMostOne<P>(pc: map<nat, P>, p: P -> bool)
    requires forall t, u | t in pc && u in pc && p(pc[t]) && p(pc[u]) :: t == u
    ensures Count(pc, p) <= 1
  {
    if Where(pc, p) != {} {
      var t :| t in Where(pc, p);
      assert Where(pc, p) == {t};
    }
  }

  lemma AtMostAll<P>(pc: map<nat, P>, p: P -> bool)
    ensures Count(pc, p) <= |pc|
  {
    assert |pc.Keys| == |pc|;
    Subset(Where(pc, p), pc.Keys);
  }

  lemma Subset(a: set<nat>, b: set<nat>)
    requires a <= b
    ensures |a| <= |b|
  {
    assert b == a + (b - a);
  }

  /** The same thread sets out again: only its last control state counts. */
  lemma Again<P>(pc: map<nat, P>, t: nat, p: P, q: P)
    ensures pc[t := p][t := q] == pc[t := q]
  {
  }
}
