/**
 The theory of the tamper-evident log: entries that each carry the digest of
 their predecessor's hash and of their own event. With a digest that is free of
 collisions, the last hash fixes every entry before it.
 */
module HashChain {

  datatype Entry<V> = Entry(previous: V, event: V, hash: V)

  type Digest<!V> = (V, V) -> V

  /** No two admissible contents share a digest. */
  ghost predicate CollisionFreeOn<V(!new)>(digest: Digest<V>, admissible: V -> bool)
  {
    forall p, e, q, f {:trigger digest(p, e), digest(q, f)} ::
      admissible(p) && admissible(e) && admissible(q) && admissible(f) && digest(p, e) == digest(q, f)
      ==> p == q && e == f
  }

  ghost predicate Admissible<V>(log: seq<Entry<V>>, admissible: V -> bool)
  {
    forall i :: 0 <= i < |log| ==> admissible(log[i].previous) && admissible(log[i].event)
  }

  function LastHash<V>(start: V, log: seq<Entry<V>>): V
  {
    if log == [] then start else log[|log| - 1].hash
  }

  /** An entry names its predecessor's hash and carries its own. */
  predicate Link<V(==)>(digest: Digest<V>, previous: V, e: Entry<V>)
  {
    e.previous == previous && e.hash == digest(e.previous, e.event)
  }

  predicate Chain<V(==)>(digest: Digest<V>, start: V, log: seq<Entry<V>>)
  {
    log == [] ||
      var init := log[..|log| - 1];
      Chain(digest, start, init) && Link(digest, LastHash(start, init), log[|log| - 1])
  }

  lemma {:induction false} ChainPrefix<V>(digest: Digest<V>, start: V, log: seq<Entry<V>>, n: nat)
    requires n <= |log| && Chain(digest, start, log)
    ensures Chain(digest, start, log[..n])
    decreases |log|
  {
    if n < |log| {
      ChainPrefix(digest, start, log[..|log| - 1], n);
      assert log[..|log| - 1][..n] == log[..n];
    } else {
      assert log[..n] == log;
    }
  }

  /** One step of a verification loop: the next link decides the next prefix. */
  lemma ChainStep<V>(digest: Digest<V>, start: V, log: seq<Entry<V>>, i: nat)
    requires i < |log| && Chain(digest, start, log[..i])
    ensures Chain(digest, start, log[..i + 1]) <==> Link(digest, LastHash(start, log[..i]), log[i])
    ensures LastHash(start, log[..i + 1]) == log[i].hash
    ensures !Link(digest, LastHash(start, log[..i]), log[i]) ==> !Chain(digest, start, log)
  {
    assert log[..i + 1][..i] == log[..i];
    if Chain(digest, start, log) { ChainPrefix(digest, start, log, i + 1); }
  }

  lemma ChainAppend<V>(digest: Digest<V>, start: V, log: seq<Entry<V>>, e: Entry<V>)
    requires Chain(digest, start, log) && Link(digest, LastHash(start, log), e)
    ensures Chain(digest, start, log + [e])
  {
    assert (log + [e])[..|log|] == log;
  }

  lemma SameDigestSameEntry<V(!new)>(digest: Digest<V>, admissible: V -> bool, x: Entry<V>, y: Entry<V>)
    requires CollisionFreeOn(digest, admissible)
    requires admissible(x.previous) && admissible(x.event) && admissible(y.previous) && admissible(y.event)
    requires x.hash == y.hash && x.hash == digest(x.previous, x.event) && y.hash == digest(y.previous, y.event)
    ensures x == y
  {
  }

  /** Chains of one length that end in one hash are equal. */
  lemma {:induction false} LastHashFixesChain<V(!new)>(
      digest: Digest<V>, admissible: V -> bool, start: V, a: seq<Entry<V>>, b: seq<Entry<V>>)
    requires CollisionFreeOn(digest, admissible)
    requires Admissible(a, admissible) && Admissible(b, admissible)
    requires Chain(digest, start, a) && Chain(digest, start, b) && |a| == |b|
    requires LastHash(start, a) == LastHash(start, b)
    ensures a == b
    decreases |a|
  {
    if a != [] {
      var n := |a| - 1;
      SameDigestSameEntry(digest, admissible, a[n], b[n]);
      LastHashFixesChain(digest, admissible, start, a[..n], b[..n]);
      assert a == a[..n] + [a[n]] && b == b[..n] + [b[n]];
    }
  }

  /** A hash found at a position of a chain vouches for everything up to it. */
  lemma {:induction false} HashVouchesForPrefix<V(!new)>(
      digest: Digest<V>, admissible: V -> bool, start: V, a: seq<Entry<V>>, b: seq<Entry<V>>)
    requires CollisionFreeOn(digest, admissible)
    requires Admissible(a, admissible) && Admissible(b, admissible)
    requires Chain(digest, start, a) && Chain(digest, start, b) && 0 < |a| <= |b|
    ensures b[|a| - 1].hash == a[|a| - 1].hash <==> a <= b
  {
    if b[|a| - 1].hash == a[|a| - 1].hash {
      ChainPrefix(digest, start, b, |a|);
      LastHashFixesChain(digest, admissible, start, a, b[..|a|]);
    }
  }
}
