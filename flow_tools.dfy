/** The flow dictionary of flownetpy/flowmodel/tools.py: a map keyed by
    ordered node pairs in which a missing pair (u, v) is answered with the
    negation of the stored (v, u), and that answer is then stored. */
module FlowTools {
  import opened Numerics

  /** The pair read in the other direction: (v, u) for (u, v). */
  function Reverse<N>(key: (N, N)): (N, N)
  {
    (key.1, key.0)
  }

  /** What one subscript `d[key]` yields (None when it raises) together with
      the dictionary it leaves behind. */
  datatype Lookup<N(==)> = Lookup(value: Option<real>, entries: map<(N, N), real>)

  /** `d[key]` on a FlowDict holding m, as a value. A stored key is answered
      directly; otherwise `__missing__` stores and returns minus the reverse
      entry, and when the reverse is missing too, negating the `None` that
      `get` returns raises before anything is stored. */
  function LookupIn<N(==)>(m: map<(N, N), real>, key: (N, N)): (r: Lookup<N>)
  {
    if key in m then Lookup(Some(m[key]), m)
    else
      var (u, v) := key;
      if (v, u) in m then Lookup(Some(-m[(v, u)]), m[key := -m[(v, u)]])
      else Lookup(None, m)
  }

  /** Every pair stored in both directions holds opposite values in the two
      (a pair (u, u) is its own reverse and is not constrained). */
  ghost predicate Antisymmetric<N>(m: map<(N, N), real>)
  {
    forall k :: k in m && k.0 != k.1 && Reverse(k) in m ==> m[Reverse(k)] == -m[k]
  }

  /** At most one direction of each pair of distinct nodes is stored, as in a
      FlowDict built from one entry per undirected edge. */
  ghost predicate OneDirection<N>(m: map<(N, N), real>)
  {
    forall k :: k in m && k.0 != k.1 ==> Reverse(k) !in m
  }

  /** A lookup fails exactly when neither direction is stored; it keeps every
      stored entry, adds at most the looked-up key, and after it the key is
      stored with the value that was returned. */
  lemma LookupFrame<N>(m: map<(N, N), real>, key: (N, N))
    ensures LookupIn(m, key).value.None? <==> key !in m && Reverse(key) !in m
    ensures LookupIn(m, key).value.None? ==> LookupIn(m, key).entries == m
    ensures m.Keys <= LookupIn(m, key).entries.Keys <= m.Keys + {key}
    ensures forall k :: k in m ==> LookupIn(m, key).entries[k] == m[k]
    ensures LookupIn(m, key).value.Some? ==>
              key in LookupIn(m, key).entries &&
              LookupIn(m, key).entries[key] == LookupIn(m, key).value.value
  {
  }

  /** Looking a key up a second time returns the same value as the first time
      and changes nothing. */
  lemma LookupIdempotent<N>(m: map<(N, N), real>, key: (N, N))
    ensures LookupIn(LookupIn(m, key).entries, key).value == LookupIn(m, key).value
    ensures LookupIn(LookupIn(m, key).entries, key).entries == LookupIn(m, key).entries
  {
  }

  /** The cached entry written by a fallback lookup keeps the dictionary
      antisymmetric. */
  lemma LookupKeepsAntisymmetric<N>(m: map<(N, N), real>, key: (N, N))
    requires Antisymmetric(m)
    ensures Antisymmetric(LookupIn(m, key).entries)
  {
    var m' := LookupIn(m, key).entries;
    forall k | k in m' && k.0 != k.1 && Reverse(k) in m'
      ensures m'[Reverse(k)] == -m'[k]
    {
      if key !in m && Reverse(key) in m {
        assert m' == m[key := -m[Reverse(key)]];
        if k == key || Reverse(k) == key {
        } else {
          assert k in m && Reverse(k) in m;
        }
      }
    }
  }

  lemma OneDirectionAntisymmetric<N>(m: map<(N, N), real>)
    requires OneDirection(m)
    ensures Antisymmetric(m)
  {
  }

  /** The dictionary after a run of subscripts, one per key, left to right. */
  function LookupAll<N(==)>(m: map<(N, N), real>, keys: seq<(N, N)>): map<(N, N), real>
    decreases |keys|
  {
    if keys == [] then m else LookupAll(LookupIn(m, keys[0]).entries, keys[1..])
  }

  /** Whatever was looked up before, the stored entries are still there and
      unchanged, and the dictionary stays antisymmetric. */
  lemma {:induction false} LookupAllInvariant<N>(m: map<(N, N), real>, keys: seq<(N, N)>)
    requires Antisymmetric(m)
    ensures Antisymmetric(LookupAll(m, keys))
    ensures forall k :: k in m ==> k in LookupAll(m, keys) && LookupAll(m, keys)[k] == m[k]
    decreases |keys|
  {
    if keys != [] {
      LookupFrame(m, keys[0]);
      LookupKeepsAntisymmetric(m, keys[0]);
      LookupAllInvariant(LookupIn(m, keys[0]).entries, keys[1..]);
    }
  }

  /** The property flownetpy's test_tools checks: for a dictionary built with one
      direction per pair, after any earlier lookups, reading (v, u) and then
      (u, v) for a stored pair (u, v) of distinct nodes succeeds twice, and the
      two answers add to zero while the stored value is returned unchanged. */
  lemma {:induction false} ReverseLookupNegates<N>(m: map<(N, N), real>, earlier: seq<(N, N)>, u: N, v: N)
    requires OneDirection(m)
    requires (u, v) in m && u != v
    ensures var d := LookupAll(m, earlier);
            var back := LookupIn(d, (v, u));
            var forth := LookupIn(back.entries, (u, v));
            back.value.Some? && forth.value == Some(m[(u, v)]) &&
            back.value.value + forth.value.value == 0.0
  {
    OneDirectionAntisymmetric(m);
    LookupAllInvariant(m, earlier);
    var d := LookupAll(m, earlier);
    assert (u, v) in d && d[(u, v)] == m[(u, v)];
    assert Reverse((u, v)) == (v, u);
    LookupFrame(d, (v, u));
  }

  /** A flownetpy FlowDict. Subscripting it may write to it: that is the
      whole point of its `__missing__`. */
  class FlowDict<N(==)> {
    var entries: map<(N, N), real>

    constructor (init: map<(N, N), real>)
      ensures entries == init
    {
      entries := init;
    }

    /** `self[key]`, with `__missing__` as the fallback; None stands for the
        exception raised when neither direction is stored. */
    method Get(key: (N, N)) returns (r: Option<real>)
      modifies this
      ensures key in old(entries) ==> r == Some(old(entries)[key]) && entries == old(entries)
      ensures key !in old(entries) && Reverse(key) in old(entries) ==>
                r == Some(-old(entries)[Reverse(key)]) &&
                entries == old(entries)[key := -old(entries)[Reverse(key)]]
      ensures key !in old(entries) && Reverse(key) !in old(entries) ==>
                r == None && entries == old(entries)
      ensures r == LookupIn(old(entries), key).value && entries == LookupIn(old(entries), key).entries
      ensures Antisymmetric(old(entries)) ==> Antisymmetric(entries)
    {
      if key in entries {
        r := Some(entries[key]);
        return;
      }
      if Antisymmetric(entries) { LookupKeepsAntisymmetric(entries, key); }
      var (u, v) := key;
      if (v, u) in entries {
        entries := entries[key := -entries[(v, u)]];
        r := Some(entries[key]);
      } else {
        r := None;
      }
    }
  }
}
