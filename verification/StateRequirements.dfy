/** Merging state needs. */
module StateRequirements {
  // `dedupe_host_state_requirements`.

  import opened Bytes
  import opened Wire

  /** `ty` is the concrete type's identity, `title` its diagnostic name. */
  datatype Requirement = Requirement(ty: nat, key: Str, lifetime: nat, title: Str, write: bool)

  datatype Conflict = ProviderKeyConflict(key: Str, existing: Str, conflicting: Str) | ProviderConflict(key: Str, name: Str)

  datatype Deduped = Merged(value: seq<Requirement>) | Conflicting(error: Conflict)

  function IndexOfType(ms: seq<Requirement>, ty: nat): (o: Option<nat>)
    ensures o.Some? ==> o.value < |ms| && ms[o.value].ty == ty && forall k | 0 <= k < o.value :: ms[k].ty != ty
    ensures o.None? ==> forall m <- ms :: m.ty != ty
  {
    if ms == [] then None
    else if ms[0].ty == ty then Some(0)
    else
      var o := IndexOfType(ms[1..], ty);
      if o.Some? then Some(o.value + 1) else None
  }

  function IndexOfKey(ms: seq<Requirement>, key: Str): (o: Option<nat>)
    ensures o.Some? ==> o.value < |ms| && ms[o.value].key == key
    ensures o.None? ==> forall m <- ms :: m.key != key
  {
    if ms == [] then None
    else if ms[0].key == key then Some(0)
    else
      var o := IndexOfKey(ms[1..], key);
      if o.Some? then Some(o.value + 1) else None
  }

  /** One requirement more. */
  function Absorb(ms: seq<Requirement>, r: Requirement): Deduped {
    var i := IndexOfType(ms, r.ty);
    if i.Some? then
      var m := ms[i.value];
      if m.key != r.key || m.lifetime != r.lifetime then Conflicting(ProviderConflict(m.key, m.title))
      else Merged(ms[i.value := m.(write := m.write || r.write)])
    else
      var k := IndexOfKey(ms, r.key);
      if k.Some? then Conflicting(ProviderKeyConflict(r.key, ms[k.value].title, r.title)) else Merged(ms + [r])
  }

  function Dedupe(rs: seq<Requirement>): Deduped {
    if rs == [] then Merged([])
    else
      var d := Dedupe(rs[..|rs| - 1]);
      if d.Merged? then Absorb(d.value, rs[|rs| - 1]) else d
  }

  // ---------------------------------------------------------------- what it means

  /** The same state exactly if the same type, and exactly if the same key; then also the same lifetime. */
  predicate Compatible(a: Requirement, b: Requirement) {
    (a.ty == b.ty <==> a.key == b.key) && (a.ty == b.ty ==> a.lifetime == b.lifetime)
  }

  predicate NoConflict(rs: seq<Requirement>) { forall a <- rs, b <- rs :: Compatible(a, b) }

  predicate SameState(a: Requirement, b: Requirement) { a.ty == b.ty && a.key == b.key && a.lifetime == b.lifetime }

  /** Some requirement for this state writes. */
  predicate Written(rs: seq<Requirement>, ty: nat) { exists r <- rs :: r.ty == ty && r.write }

  function FirstAt(rs: seq<Requirement>, ty: nat): nat { var o := IndexOfType(rs, ty); if o.Some? then o.value else |rs| }

  predicate Separate(ms: seq<Requirement>) { forall i, j | 0 <= i < j < |ms| :: ms[i].ty != ms[j].ty && ms[i].key != ms[j].key }

  predicate Covering(ms: seq<Requirement>, rs: seq<Requirement>) { forall r <- rs :: exists m <- ms :: SameState(m, r) }

  /** The first requirement for the state, written if any of them writes. */
  predicate Entry(rs: seq<Requirement>, m: Requirement) {
    FirstAt(rs, m.ty) < |rs| && rs[FirstAt(rs, m.ty)].(write := m.write) == m && m.write == Written(rs, m.ty)
  }

  predicate FirstAppearance(ms: seq<Requirement>, rs: seq<Requirement>) {
    forall i, j | 0 <= i < j < |ms| :: FirstAt(rs, ms[i].ty) < FirstAt(rs, ms[j].ty)
  }

  /** One entry for each state required, written if any requirement for it writes, in order of first appearance. */
  ghost predicate Represents(ms: seq<Requirement>, rs: seq<Requirement>) {
    NoConflict(rs) && Separate(ms) && Covering(ms, rs) && (forall m <- ms :: Entry(rs, m)) && FirstAppearance(ms, rs)
  }

  lemma FirstAtGrows(rs: seq<Requirement>, r: Requirement, ty: nat)
    ensures FirstAt(rs, ty) < |rs| ==> FirstAt(rs + [r], ty) == FirstAt(rs, ty)
    ensures FirstAt(rs, ty) == |rs| ==> FirstAt(rs + [r], ty) == if r.ty == ty then |rs| else |rs| + 1
  {
    var i := IndexOfType(rs + [r], ty);
    var o := IndexOfType(rs, ty);
    if o.Some? {
      assert (rs + [r])[o.value].ty == ty;
    } else if r.ty == ty {
      assert (rs + [r])[|rs|].ty == ty;
    }
    if i.Some? && i.value < |rs| {
      assert rs[i.value] in rs;
    }
  }

  lemma AbsorbConflicts(ms: seq<Requirement>, rs: seq<Requirement>, r: Requirement)
    requires Represents(ms, rs)
    ensures Absorb(ms, r).Merged? <==> NoConflict(rs + [r])
  {
    var i, k := IndexOfType(ms, r.ty), IndexOfKey(ms, r.key);
    if Absorb(ms, r).Merged? {
      forall a <- rs ensures Compatible(a, r) && Compatible(r, a) {
        var m :| m in ms && SameState(m, a);
        if i.Some? {
          assert m.ty == r.ty ==> m == ms[i.value];
          assert m.key == r.key ==> m == ms[i.value];
        }
      }
      forall a <- rs + [r], b <- rs + [r] ensures Compatible(a, b) { }
    } else {
      var m := if i.Some? then ms[i.value] else ms[k.value];
      assert Entry(rs, m);
      var a := rs[FirstAt(rs, m.ty)];
      assert a in rs + [r] && r in rs + [r];
      assert !Compatible(a, r);
    }
  }

  lemma WrittenGrows(rs: seq<Requirement>, r: Requirement, ty: nat)
    ensures Written(rs + [r], ty) == (Written(rs, ty) || (r.ty == ty && r.write))
  {
    if Written(rs, ty) {
      var x :| x in rs && x.ty == ty && x.write;
      assert x in rs + [r];
    }
    assert r in rs + [r];
  }

  function Updated(m: Requirement, r: Requirement): Requirement { if m.ty == r.ty then m.(write := m.write || r.write) else m }

  /** An entry stays right when another requirement is read. */
  lemma EntryGrows(rs: seq<Requirement>, r: Requirement, m: Requirement)
    requires Entry(rs, m)
    ensures Entry(rs + [r], Updated(m, r)) && FirstAt(rs + [r], m.ty) == FirstAt(rs, m.ty)
  {
    FirstAtGrows(rs, r, m.ty);
    WrittenGrows(rs, r, m.ty);
  }

  /** Reading a requirement for a known state updates its entry. */
  lemma AbsorbMerges(ms: seq<Requirement>, rs: seq<Requirement>, r: Requirement, ns: seq<Requirement>)
    requires Represents(ms, rs) && NoConflict(rs + [r]) && IndexOfType(ms, r.ty).Some? && Absorb(ms, r) == Merged(ns)
    ensures Represents(ns, rs + [r])
  {
    hide FirstAt, Written, NoConflict, Entry;
    assert |ns| == |ms|;
    forall k | 0 <= k < |ms| ensures ns[k] == Updated(ms[k], r) && Entry(rs + [r], ns[k]) && FirstAt(rs + [r], ns[k].ty) == FirstAt(rs, ms[k].ty) {
      EntryGrows(rs, r, ms[k]);
    }
    forall a <- rs + [r] ensures exists m <- ns :: SameState(m, a) {
      if a in rs {
        var m :| m in ms && SameState(m, a);
        var k :| 0 <= k < |ms| && ms[k] == m;
        assert SameState(ns[k], a) && ns[k] in ns;
      } else {
        var i := IndexOfType(ms, r.ty).value;
        assert SameState(ns[i], a) && ns[i] in ns;
      }
    }
  }

  lemma Unseen(ms: seq<Requirement>, rs: seq<Requirement>, r: Requirement)
    requires Represents(ms, rs) && IndexOfType(ms, r.ty).None?
    ensures Entry(rs + [r], r) && FirstAt(rs + [r], r.ty) == |rs|
    ensures forall m <- ms :: FirstAt(rs, m.ty) < |rs|
  {
    forall a <- rs ensures a.ty != r.ty {
      var m :| m in ms && SameState(m, a);
    }
    forall m <- ms ensures FirstAt(rs, m.ty) < |rs| { assert Entry(rs, m); }
    FirstAtGrows(rs, r, r.ty);
    WrittenGrows(rs, r, r.ty);
  }

  /** Reading a requirement for a new state appends it. */
  lemma AbsorbAppends(ms: seq<Requirement>, rs: seq<Requirement>, r: Requirement, ns: seq<Requirement>)
    requires Represents(ms, rs) && NoConflict(rs + [r]) && IndexOfType(ms, r.ty).None? && Absorb(ms, r) == Merged(ns)
    ensures Represents(ns, rs + [r])
  {
    hide FirstAt, Written, NoConflict, Entry;
    Unseen(ms, rs, r);
    assert ns == ms + [r];
    forall k | 0 <= k < |ms| ensures Entry(rs + [r], ns[k]) && FirstAt(rs + [r], ns[k].ty) == FirstAt(rs, ms[k].ty) {
      EntryGrows(rs, r, ms[k]);
    }
    forall a <- rs + [r] ensures exists m <- ns :: SameState(m, a) {
      if a in rs {
        var m :| m in ms && SameState(m, a);
        assert m in ns;
      } else {
        assert r in ns && SameState(r, a);
      }
    }
  }

  /** It succeeds exactly when no two requirements conflict, and then has one entry per state. */
  lemma {:induction false} DedupeExact(rs: seq<Requirement>)
    ensures Dedupe(rs).Merged? <==> NoConflict(rs)
    ensures Dedupe(rs).Merged? ==> Represents(Dedupe(rs).value, rs)
  {
    if rs != [] {
      var before, r := rs[..|rs| - 1], rs[|rs| - 1];
      DedupeExact(before);
      hide Represents;
      assert rs == before + [r];
      var d := Dedupe(before);
      if d.Merged? {
        AbsorbConflicts(d.value, before, r);
        if NoConflict(rs) {
          if IndexOfType(d.value, r.ty).Some? {
            AbsorbMerges(d.value, before, r, Dedupe(rs).value);
          } else {
            AbsorbAppends(d.value, before, r, Dedupe(rs).value);
          }
        }
      } else {
        var a, b :| a in before && b in before && !Compatible(a, b);
        assert a in rs && b in rs;
      }
    }
  }

  /** Merging again changes nothing. */
  lemma {:induction false} DedupeSeparate(ms: seq<Requirement>)
    requires Separate(ms)
    ensures Dedupe(ms) == Merged(ms)
  {
    if ms != [] {
      var before, m := ms[..|ms| - 1], ms[|ms| - 1];
      DedupeSeparate(before);
      forall k | 0 <= k < |before| ensures before[k].ty != m.ty && before[k].key != m.key { assert before[k] == ms[k]; }
      assert before + [m] == ms;
    }
  }

  lemma DedupeIdempotent(rs: seq<Requirement>)
    requires Dedupe(rs).Merged?
    ensures Dedupe(Dedupe(rs).value) == Dedupe(rs)
  {
    DedupeExact(rs);
    DedupeSeparate(Dedupe(rs).value);
  }

  /** The states and write flags of a result. */
  function States(ms: seq<Requirement>): set<(nat, Str, nat, bool)> { set m <- ms :: (m.ty, m.key, m.lifetime, m.write) }

  lemma StatesWithin(xs: seq<Requirement>, ys: seq<Requirement>, ms: seq<Requirement>, ns: seq<Requirement>)
    requires (forall x :: x in xs <==> x in ys) && Represents(ms, xs) && Represents(ns, ys)
    ensures States(ms) <= States(ns)
  {
    forall m <- ms ensures (m.ty, m.key, m.lifetime, m.write) in States(ns) {
      assert Entry(xs, m);
      var x := xs[FirstAt(xs, m.ty)];
      assert x in ys;
      var n :| n in ns && SameState(n, x);
      assert Entry(ys, n);
      assert Written(xs, m.ty) == Written(ys, m.ty);
    }
  }

  /** Neither success nor the resulting states depend on the order of the requirements. */
  lemma DedupeOrder(xs: seq<Requirement>, ys: seq<Requirement>)
    requires multiset(xs) == multiset(ys)
    ensures Dedupe(xs).Merged? <==> Dedupe(ys).Merged?
    ensures Dedupe(xs).Merged? ==> States(Dedupe(xs).value) == States(Dedupe(ys).value)
  {
    forall x ensures x in xs <==> x in ys { assert x in multiset(xs) <==> x in multiset(ys); }
    DedupeExact(xs);
    DedupeExact(ys);
    hide Dedupe, Represents;
    if Dedupe(xs).Merged? {
      StatesWithin(xs, ys, Dedupe(xs).value, Dedupe(ys).value);
      StatesWithin(ys, xs, Dedupe(ys).value, Dedupe(xs).value);
    }
  }

  /** The loop over requirements, with the merged list updated in place. */
  method DedupeRequirements(rs: seq<Requirement>) returns (r: Deduped)
    ensures r == Dedupe(rs)
    ensures r.Merged? <==> NoConflict(rs)
    ensures r.Merged? ==> Represents(r.value, rs)
  {
    hide Represents, NoConflict;
    DedupeExact(rs);
    var merged: seq<Requirement> := [];
    for i := 0 to |rs|
      invariant Dedupe(rs[..i]) == Merged(merged)
    {
      assert rs[..i + 1][..i] == rs[..i];
      var q := rs[i];
      var at := IndexOfType(merged, q.ty);
      if at.Some? {
        var m := merged[at.value];
        if m.key != q.key || m.lifetime != q.lifetime {
          r := Conflicting(ProviderConflict(m.key, m.title));
          StaysConflicting(rs, i + 1);
          return;
        }
        merged := merged[at.value := m.(write := m.write || q.write)];
      } else {
        var clash := IndexOfKey(merged, q.key);
        if clash.Some? {
          r := Conflicting(ProviderKeyConflict(q.key, merged[clash.value].title, q.title));
          StaysConflicting(rs, i + 1);
          return;
        }
        merged := merged + [q];
      }
    }
    assert rs[..|rs|] == rs;
    r := Merged(merged);
  }

  lemma {:induction false} StaysConflicting(rs: seq<Requirement>, i: nat)
    requires i <= |rs| && Dedupe(rs[..i]).Conflicting?
    ensures Dedupe(rs) == Dedupe(rs[..i])
    decreases |rs| - i
  {
    if i == |rs| {
      assert rs[..i] == rs;
    } else {
      assert rs[..i + 1][..i] == rs[..i];
      StaysConflicting(rs, i + 1);
    }
  }
}
