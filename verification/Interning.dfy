/** The constant pool. */
module Interning {
  // Values of scalar, text and byte kinds are shared, arrays and maps are not.

  import opened Constants

  predicate Shared(v: Value) { v.Int? || v.Float? || v.Bool? || v.Text? || v.Blob? }

  function FirstIndex(pool: seq<Value>, v: Value): (i: nat)
    ensures i <= |pool| && (i < |pool| <==> v in pool) && (i < |pool| ==> pool[i] == v)
    ensures forall k | 0 <= k < i :: pool[k] != v
  {
    if pool == [] then 0
    else if pool[0] == v then 0
    else 1 + FirstIndex(pool[1..], v)
  }

  function Intern(pool: seq<Value>, v: Value): seq<Value> {
    if Shared(v) && v in pool then pool else pool + [v]
  }

  function IndexFor(pool: seq<Value>, v: Value): nat {
    if Shared(v) then FirstIndex(pool, v) else |pool|
  }

  function InternAll(pool: seq<Value>, vs: seq<Value>): seq<Value>
    decreases vs
  {
    if vs == [] then pool else InternAll(Intern(pool, vs[0]), vs[1..])
  }

  /** No shared value appears twice. */
  predicate Unique(pool: seq<Value>) { forall i, j | 0 <= i < j < |pool| && Shared(pool[i]) :: pool[i] != pool[j] }

  lemma {:induction false} PoolGrows(pool: seq<Value>, vs: seq<Value>)
    ensures pool <= InternAll(pool, vs) && (Unique(pool) ==> Unique(InternAll(pool, vs)))
    decreases vs
  {
    if vs != [] {
      PoolGrows(Intern(pool, vs[0]), vs[1..]);
    }
  }

  /** In any sequence of additions, the index given for the `k`th value still holds it at the end. */
  lemma {:induction false} IndexLasts(pool: seq<Value>, vs: seq<Value>, k: nat)
    requires k < |vs|
    ensures var i := IndexFor(InternAll(pool, vs[..k]), vs[k]);
            i < |InternAll(pool, vs)| && InternAll(pool, vs)[i] == vs[k]
    decreases vs
  {
    if k == 0 {
      PoolGrows(Intern(pool, vs[0]), vs[1..]);
      assert vs[..0] == [];
    } else {
      IndexLasts(Intern(pool, vs[0]), vs[1..], k - 1);
      assert vs[..k][1..] == vs[1..][..k - 1];
    }
  }

  lemma FirstIndexGrows(pool: seq<Value>, w: Value, v: Value)
    ensures v in pool ==> FirstIndex(pool + [w], v) == FirstIndex(pool, v)
    ensures v !in pool ==> FirstIndex(pool + [w], v) == if v == w then |pool| else |pool| + 1
  {
    var i := FirstIndex(pool + [w], v);
    if v in pool {
      assert (pool + [w])[FirstIndex(pool, v)] == v;
    } else if v == w {
      assert (pool + [w])[|pool|] == v;
    }
  }
}
