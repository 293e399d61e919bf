/** Resources in struct bodies. */
module StructBodies {
  // Struct bodies are checked by a collector that drops its own error, so a resource behind a limit is never looked up.
  // Which catalogs can be built although a resource of a struct body is not declared, and which cannot.

  import opened Bytes
  import opened Seqs
  import opened Wire
  import opened HostNames
  import opened HostTypes
  import opened ImportLimits
  import opened HostTraversal
  import opened ReachedKeys
  import opened CanonicalBytes
  import opened Catalogs
  import opened Surface

  // ---------------------------------------------------------------- a catalog without its resources

  predicate FieldSound(ss: seq<StructDef>, f: HostField) { StructIdent(f.name) && RefsOk(ss, f.ty) }

  ghost predicate StructSound(ss: seq<StructDef>, s: StructDef) {
    StructIdent(s.name) && Distinct(FieldName, s.fields) && forall f <- s.fields :: FieldSound(ss, f)
  }

  predicate ParamSound(ss: seq<StructDef>, p: ImportParam) {
    |p.name| <= MAX_NAME && DepthOf(p.ty) <= MAX_HOST_DEPTH && PassingOk(p) && RefsOk(ss, p.ty)
  }

  ghost predicate FunctionSound(ss: seq<StructDef>, f: Signature) {
    && FunctionName(f.name) && |f.description| <= MAX_DESCRIPTION
    && Distinct(ParamName, f.params) && (forall p <- f.params :: ParamSound(ss, p))
    && DepthOf(f.result) <= MAX_HOST_DEPTH && RefsOk(ss, f.result)
  }

  /** Everything `validate_surface` asks of structs and functions that does not look at the declared resources. */
  ghost predicate Sound(ss: seq<StructDef>, fs: seq<Signature>) {
    && |fs| <= MAX_HOST_FUNCTIONS && |ss| <= MAX_STRUCTS
    && Distinct(StructName, ss) && (forall s <- ss :: StructSound(ss, s))
    && (forall f <- fs :: FunctionSound(ss, f)) && AggregateOk(fs) && Distinct(OverloadBytes, fs)
  }

  /** The resources that must be declared: those reached in struct bodies and all those of functions. */
  ghost predicate Needs(ss: seq<StructDef>, fs: seq<Signature>, k: Str) {
    || (exists s <- ss, f <- s.fields :: Reached(f.ty, k))
    || (exists f <- fs :: k in Keys(f.result) || exists p <- f.params :: k in Keys(p.ty))
  }

  ghost predicate Mentions(ss: seq<StructDef>, k: Str) { exists s <- ss, f <- s.fields :: k in Keys(f.ty) }

  ghost predicate ResourcesSound(rs: seq<Resource>) {
    |rs| <= MAX_RESOURCES && (forall r <- rs :: |r.description| <= MAX_DESCRIPTION) && Distinct(ResourceKey, rs)
  }

  lemma FieldSplits(c: Catalog, f: HostField)
    ensures FieldOk(c, f) <==> FieldSound(c.structs, f) && forall k | Reached(f.ty, k) :: Declared(c.resources, k)
  {
    hide Collected, Reached, RefsOk, StructIdent;
    forall k ensures k in Collected(f.ty) <==> Reached(f.ty, k) { CollectedExactly(f.ty, k); }
  }

  lemma StructSplits(c: Catalog, s: StructDef)
    ensures StructOk(c, s) <==> StructSound(c.structs, s) && forall f <- s.fields, k | Reached(f.ty, k) :: Declared(c.resources, k)
  {
    hide FieldOk, FieldSound, Reached, StructIdent, Declared;
    forall f <- s.fields ensures FieldOk(c, f) <==> FieldSound(c.structs, f) && forall k | Reached(f.ty, k) :: Declared(c.resources, k) {
      FieldSplits(c, f);
    }
  }

  lemma FunctionSplits(c: Catalog, f: Signature)
    ensures FunctionOk(c, f) <==>
              && FunctionSound(c.structs, f) && (forall k <- Keys(f.result) :: Declared(c.resources, k))
              && forall p <- f.params, k <- Keys(p.ty) :: Declared(c.resources, k)
  {
    hide RefsOk, Keys, DepthOf, FunctionName, Declared, PassingOk;
    forall p <- f.params ensures ParamOk(c, p) <==> ParamSound(c.structs, p) && forall k <- Keys(p.ty) :: Declared(c.resources, k) {
    }
  }

  /** A catalog can be built exactly when it is sound without its resources, these are, and all needed ones are declared. */
  lemma SurfaceSplits(c: Catalog)
    ensures SurfaceOk(c) <==>
              && Sound(c.structs, c.functions) && ResourcesSound(c.resources)
              && forall k | Needs(c.structs, c.functions, k) :: Declared(c.resources, k)
  {
    hide StructOk, StructSound, FunctionOk, FunctionSound, AggregateOk, OverloadBytes, Reached, Keys, Declared;
    forall s <- c.structs
      ensures StructOk(c, s) <==> StructSound(c.structs, s) && forall f <- s.fields, k | Reached(f.ty, k) :: Declared(c.resources, k)
    {
      StructSplits(c, s);
    }
    forall f <- c.functions
      ensures FunctionOk(c, f) <==>
                && FunctionSound(c.structs, f) && (forall k <- Keys(f.result) :: Declared(c.resources, k))
                && forall p <- f.params, k <- Keys(p.ty) :: Declared(c.resources, k)
    {
      FunctionSplits(c, f);
    }
  }

  // ---------------------------------------------------------------- what goes unchecked

  /** The needed keys, as a set. */
  ghost function Needed(ss: seq<StructDef>, fs: seq<Signature>): (ks: set<Str>)
    ensures forall k :: k in ks <==> Needs(ss, fs, k)
  {
    hide Reached, Keys;
    forall s <- ss, f <- s.fields, k | Reached(f.ty, k) ensures k in Keys(f.ty) { ReachedWithin(f.ty, k); }
    (set s <- ss, f <- s.fields, k <- Keys(f.ty) | Reached(f.ty, k) :: k)
    + (set f <- fs, k <- Keys(f.result) :: k) + (set f <- fs, p <- f.params, k <- Keys(p.ty) :: k)
  }

  /** Resources for `ks`, each once. */
  lemma {:induction false} Listed(ks: set<Str>) returns (rs: seq<Resource>)
    ensures |rs| == |ks| && Distinct(ResourceKey, rs) && (forall r <- rs :: r.description == [])
    ensures forall k :: Declared(rs, k) <==> k in ks
    decreases |ks|
  {
    if ks == {} {
      rs := [];
    } else {
      var k :| k in ks;
      var more := Listed(ks - {k});
      rs := more + [Resource(k, [])];
      forall x ensures Declared(rs, x) <==> x in ks { DeclaredMore(more, Resource(k, []), x); }
      forall i, j | 0 <= i < j < |rs| ensures rs[i].key != rs[j].key {
        if j == |more| { assert Declared(more, more[i].key); }
      }
    }
  }

  lemma DeclaredMore(rs: seq<Resource>, r: Resource, k: Str)
    ensures Declared(rs + [r], k) <==> Declared(rs, k) || r.key == k
  {
    if Declared(rs, k) {
      var x :| x in rs && x.key == k;
      assert x in rs + [r];
    }
    assert (rs + [r])[|rs|] == r;
  }

  lemma {:induction false} AtMost(rs: seq<Resource>, ks: set<Str>)
    requires forall k <- ks :: Declared(rs, k)
    ensures |ks| <= |rs|
  {
    if rs != [] {
      AtMost(rs[1..], ks - {rs[0].key});
    } else {
      assert ks == {};
    }
  }

  /** Some resources make these structs and functions a catalog that can be built although a struct body mentions a resource
      that is not among them. */
  ghost predicate CanMiss(ss: seq<StructDef>, fs: seq<Signature>) {
    exists rs: seq<Resource> {:trigger Catalog(rs, ss, fs)} ::
      SurfaceOk(Catalog(rs, ss, fs)) && exists k | Mentions(ss, k) :: !Declared(rs, k)
  }

  /** Exactly which structs and functions let an undeclared resource through: those sound without resources, with room to
      declare the needed ones, where a struct body mentions a resource that is nowhere reached in one and in no function. */
  lemma MissedExactly(ss: seq<StructDef>, fs: seq<Signature>)
    ensures CanMiss(ss, fs) <==>
              && Sound(ss, fs) && |Needed(ss, fs)| <= MAX_RESOURCES
              && exists k | Mentions(ss, k) :: !Needs(ss, fs, k)
  {
    hide SurfaceOk, Sound, Needs, Mentions;
    if CanMiss(ss, fs) {
      var rs :| SurfaceOk(Catalog(rs, ss, fs)) && exists k | Mentions(ss, k) :: !Declared(rs, k);
      SurfaceSplits(Catalog(rs, ss, fs));
      AtMost(rs, Needed(ss, fs));
    }
    if Sound(ss, fs) && |Needed(ss, fs)| <= MAX_RESOURCES && exists k | Mentions(ss, k) :: !Needs(ss, fs, k) {
      var rs := Listed(Needed(ss, fs));
      SurfaceSplits(Catalog(rs, ss, fs));
      assert ResourcesSound(rs);
      assert SurfaceOk(Catalog(rs, ss, fs));
    }
  }

  /** If every struct field is within the limits of one schema, all resources of struct bodies are declared. */
  lemma BodiesDeclared(c: Catalog)
    requires SurfaceOk(c) && forall s <- c.structs, f <- s.fields :: WithinBudget(f.ty, 0, 0)
    ensures forall k | Mentions(c.structs, k) :: Declared(c.resources, k)
  {
    hide SurfaceOk, Declared, Reached, Keys, WithinBudget;
    SurfaceSplits(c);
    forall k | Mentions(c.structs, k) ensures Declared(c.resources, k) {
      var s, f :| s in c.structs && f in s.fields && k in Keys(f.ty);
      ReachedWithin(f.ty, k);
      assert Needs(c.structs, c.functions, k);
    }
  }

  // ---------------------------------------------------------------- a resource out of reach

  function Nest(n: nat, t: HostType): HostType { if n == 0 then t else ListOf(Nest(n - 1, t)) }

  lemma {:induction false} NestDepth(n: nat, x: Str, depth: nat, i: nat)
    requires i < |Order(Nest(n, Handle(x)), depth)|
    ensures Order(Nest(n, Handle(x)), depth)[i].t.Handle? ==> Order(Nest(n, Handle(x)), depth)[i].depth == depth + n
    decreases n
  {
    if n > 0 && i > 0 {
      NestDepth(n - 1, x, depth + 1, i - 1);
    }
  }

  lemma {:induction false} NestKeys(n: nat, x: Str)
    ensures Keys(Nest(n, Handle(x))) == [x]
  {
    if n > 0 { NestKeys(n - 1, x); }
  }

  lemma {:induction false} NestRefs(n: nat, x: Str, ss: seq<StructDef>)
    ensures RefsOk(ss, Nest(n, Handle(x)))
  {
    if n > 0 { NestRefs(n - 1, x, ss); }
  }

  /** One struct with one field, a resource inside at least as many lists as the depth limit, is let through with no resource
      declared at all. */
  lemma DeepResourceMissed(n: nat, x: Str)
    requires n >= MAX_HOST_DEPTH && StructIdent(x)
    ensures var s := StructDef(x, [HostField(x, Nest(n, Handle(x)))], []);
            SurfaceOk(Catalog([], [s], [])) && Mentions([s], x) && CanMiss([s], [])
  {
    hide Nest, Order, Keys, RefsOk, StructIdent;
    var t := Nest(n, Handle(x));
    var f := HostField(x, t);
    var s := StructDef(x, [f], []);
    var c := Catalog([], [s], []);
    NestKeys(n, x);
    NestRefs(n, x, [s]);
    forall k ensures !Reached(t, k) {
      forall i | 0 <= i < |Order(t, 1)| && InReach(Order(t, 1), i) ensures Order(t, 1)[i].t != Handle(k) { NestDepth(n, x, 1, i); }
    }
    assert f in s.fields && s in [s] && x in Keys(f.ty);
    assert FieldSound([s], f) && StructSound([s], s);
    hide Reached;
    assert Sound([s], []);
    forall k ensures !Needs([s], [], k) { }
    SurfaceSplits(c);
    assert Mentions([s], x) && !Declared([], x);
  }
}
