/** `validate_surface`: what a catalog must satisfy to be built. */
module Surface {
  import opened Bytes
  import opened Seqs
  import opened Wire
  import opened HostNames
  import opened HostTypes
  import opened ImportLimits
  import opened HostTraversal
  import opened Sorting
  import opened CanonicalBytes
  import opened Catalogs

  const MAX_DESCRIPTION: nat := 4_096

  datatype CatalogError =
    | SchemaLimit(error: SchemaError)
    | DescriptionTooLong
    | DuplicateResourceKey(key: Str)
    | DuplicateStructName(name: Str) | InvalidStructName(name: Str)
    | DuplicateStructField(owner: Str, name: Str) | InvalidStructFieldName(owner: Str, name: Str)
    | UnknownStructResource(owner: Str, key: Str)
    | UnknownStruct(owner: Str, name: Str) | StructFieldMismatch(owner: Str, name: Str)
    | InvalidFunctionName(name: Str) | ParameterNameTooLong
    | DuplicateParameterName(owner: Str, name: Str)
    | UnknownResource(owner: Str, key: Str)
    | ResourceValuePassing(owner: Str, name: Str) | NonResourcePassing(owner: Str, name: Str)
    | DuplicateSignature(name: Str)

  datatype Surfaced<T> = Good(value: T) | Bad(error: CatalogError)

  // ---------------------------------------------------------------- named structs

  predicate Declared(rs: seq<Resource>, key: Str) { exists r <- rs :: r.key == key }

  /** The first declaration of a name. */
  function FindStruct(ss: seq<StructDef>, name: Str): (o: Option<StructDef>)
    ensures o.Some? ==> o.value in ss && o.value.name == name
    ensures o.None? ==> forall s <- ss :: s.name != name
  {
    if ss == [] then None else if ss[0].name == name then Some(ss[0]) else FindStruct(ss[1..], name)
  }

  /** Sorted by name, the fields are the same; their types are compared as they stand. */
  predicate SameFields(a: seq<HostField>, b: seq<HostField>) { |a| == |b| && Sort(FieldName, a) == Sort(FieldName, b) }

  /** Every named struct in the type is declared with these fields. */
  predicate RefsOk(ss: seq<StructDef>, t: HostType)
    decreases t
  {
    match t
    case Struct(x, fs) =>
      var o := FindStruct(ss, x);
      o.Some? && SameFields(o.value.fields, fs) && forall f <- fs :: FieldRefsOk(ss, f)
    case ListOf(u) => RefsOk(ss, u)
    case MapOf(u) => RefsOk(ss, u)
    case Maybe(u) => RefsOk(ss, u)
    case Function(ts, u) => RefsOk(ss, u) && forall t <- ts :: RefsOk(ss, t)
    case _ => true
  }

  predicate FieldRefsOk(ss: seq<StructDef>, f: HostField)
    decreases f
  {
    RefsOk(ss, f.ty)
  }

  /** A declared field: a good name, and every resource the collector reports is declared. */
  predicate FieldOk(c: Catalog, f: HostField) {
    StructIdent(f.name) && (forall k <- Collected(f.ty) :: Declared(c.resources, k)) && RefsOk(c.structs, f.ty)
  }

  ghost predicate StructOk(c: Catalog, s: StructDef) {
    StructIdent(s.name) && Distinct(FieldName, s.fields) && forall f <- s.fields :: FieldOk(c, f)
  }

  ghost predicate StructsOk(c: Catalog) { Distinct(StructName, c.structs) && forall s <- c.structs :: StructOk(c, s) }

  // ---------------------------------------------------------------- functions

  function ParamName(p: ImportParam): Str { p.name }

  /** Resources are never passed by value; borrowing needs a resource. */
  predicate PassingOk(p: ImportParam) {
    if Keys(p.ty) != [] then p.passing != ByValue else p.passing != Borrow && p.passing != BorrowMut
  }

  predicate TypeOk(c: Catalog, t: HostType) { DepthOf(t) <= MAX_HOST_DEPTH && forall k <- Keys(t) :: Declared(c.resources, k) }

  predicate ParamOk(c: Catalog, p: ImportParam) {
    |p.name| <= MAX_NAME && TypeOk(c, p.ty) && PassingOk(p) && RefsOk(c.structs, p.ty)
  }

  ghost predicate FunctionOk(c: Catalog, f: Signature) {
    && FunctionName(f.name) && |f.description| <= MAX_DESCRIPTION
    && Distinct(ParamName, f.params) && (forall p <- f.params :: ParamOk(c, p))
    && TypeOk(c, f.result) && RefsOk(c.structs, f.result)
  }

  function Params(f: Signature): nat { |f.params| }
  function Nodes(f: Signature): nat { Sum(ParamNodes, f.params) + NodesOf(f.result) }
  function Props(f: Signature): nat { Sum(ParamProps, f.params) + PropsOf(f.result) }

  /** `validate_function_shape`: one function against a budget of its own. */
  predicate FunctionShape(f: Signature) {
    && FunctionName(f.name) && |f.description| <= MAX_DESCRIPTION
    && (forall p <- f.params :: |p.name| <= MAX_NAME && DepthOf(p.ty) <= MAX_HOST_DEPTH) && DepthOf(f.result) <= MAX_HOST_DEPTH
    && Params(f) <= MAX_HOST_PARAMETERS && Nodes(f) <= MAX_HOST_NODES && Props(f) <= MAX_HOST_PROPERTIES
  }

  /** All functions share one budget; struct bodies are not charged to it. */
  predicate AggregateOk(fs: seq<Signature>) {
    Sum(Params, fs) <= MAX_HOST_PARAMETERS && Sum(Nodes, fs) <= MAX_HOST_NODES && Sum(Props, fs) <= MAX_HOST_PROPERTIES
  }

  function RawArg(p: ImportParam, rest: seq<u8>): seq<u8> { Raw(p.ty, [PassingByte(p.passing)] + rest) }

  /** `try_overload_identity_bytes`: the name and the ordered types and passing modes. */
  function OverloadBytes(f: Signature): seq<u8> {
    PushStr(f.name) + (PushLen(|f.params|) + Fold(RawArg, Mapped(CanonParam, f.params), []))
  }

  /** The catalogs that can be built. */
  ghost predicate SurfaceOk(c: Catalog) {
    && |c.resources| <= MAX_RESOURCES && |c.functions| <= MAX_HOST_FUNCTIONS && |c.structs| <= MAX_STRUCTS
    && (forall r <- c.resources :: |r.description| <= MAX_DESCRIPTION) && Distinct(ResourceKey, c.resources)
    && StructsOk(c)
    && (forall f <- c.functions :: FunctionOk(c, f)) && AggregateOk(c.functions)
    && Distinct(OverloadBytes, c.functions)
  }

  // ---------------------------------------------------------------- what errors say

  /** A reference in the type is to no declared struct, or to one with other fields. */
  predicate RefWrong(owner: Str, ss: seq<StructDef>, t: HostType, e: CatalogError)
    decreases t
  {
    match t
    case Struct(x, fs) =>
      var o := FindStruct(ss, x);
      || (o.None? && e == UnknownStruct(owner, x))
      || (o.Some? && !SameFields(o.value.fields, fs) && e == StructFieldMismatch(owner, x))
      || exists f <- fs :: FieldRefWrong(owner, ss, f, e)
    case ListOf(u) => RefWrong(owner, ss, u, e)
    case MapOf(u) => RefWrong(owner, ss, u, e)
    case Maybe(u) => RefWrong(owner, ss, u, e)
    case Function(ts, u) => RefWrong(owner, ss, u, e) || exists t <- ts :: RefWrong(owner, ss, t, e)
    case _ => false
  }

  predicate FieldRefWrong(owner: Str, ss: seq<StructDef>, f: HostField, e: CatalogError)
    decreases f
  {
    RefWrong(owner, ss, f.ty, e)
  }

  predicate FieldWrong(c: Catalog, owner: Str, f: HostField, e: CatalogError) {
    || (e == InvalidStructFieldName(owner, f.name) && !StructIdent(f.name))
    || (e.UnknownStructResource? && e.owner == owner && e.key in Collected(f.ty) && !Declared(c.resources, e.key))
    || RefWrong(owner, c.structs, f.ty, e)
  }

  ghost predicate StructWrong(c: Catalog, s: StructDef, e: CatalogError) {
    || (e == InvalidStructName(s.name) && !StructIdent(s.name))
    || (exists i, j | 0 <= i < j < |s.fields| :: s.fields[i].name == s.fields[j].name && e == DuplicateStructField(s.name, s.fields[j].name))
    || exists f <- s.fields :: FieldWrong(c, s.name, f, e)
  }

  ghost predicate StructsWrong(c: Catalog, e: CatalogError) {
    || (exists i, j | 0 <= i < j < |c.structs| :: c.structs[i].name == c.structs[j].name && e == DuplicateStructName(c.structs[j].name))
    || exists s <- c.structs :: StructWrong(c, s, e)
  }

  /** A limit of the shared budget, with what is charged before a type. */
  predicate TypeWrong(c: Catalog, owner: Str, t: HostType, nodes: nat, props: nat, e: CatalogError) {
    match e
    case SchemaLimit(l) => Exceeds(t, nodes, props, l)
    case UnknownResource(o, k) => o == owner && k in Keys(t) && !Declared(c.resources, k)
    case _ => false
  }

  ghost predicate NamesWrong(f: Signature, e: CatalogError) {
    || (e == ParameterNameTooLong && exists p <- f.params :: |p.name| > MAX_NAME)
    || exists i, j | 0 <= i < j < |f.params| :: f.params[i].name == f.params[j].name && e == DuplicateParameterName(f.name, f.params[j].name)
  }

  predicate PassingWrong(f: Signature, p: ImportParam, e: CatalogError) {
    || (e == ResourceValuePassing(f.name, p.name) && Keys(p.ty) != [] && p.passing == ByValue)
    || (e == NonResourcePassing(f.name, p.name) && Keys(p.ty) == [] && (p.passing == Borrow || p.passing == BorrowMut))
  }

  /** The type of a parameter, after those before it, or how it is passed. */
  ghost predicate ParamsWrong(c: Catalog, f: Signature, nodes: nat, props: nat, e: CatalogError) {
    exists i | 0 <= i < |f.params| ::
      || TypeWrong(c, f.name, f.params[i].ty, nodes + Sum(ParamNodes, f.params[..i]), props + Sum(ParamProps, f.params[..i]), e)
      || PassingWrong(f, f.params[i], e)
  }

  ghost predicate RefsWrong(c: Catalog, f: Signature, e: CatalogError) {
    RefWrong(f.name, c.structs, f.result, e) || exists p <- f.params :: RefWrong(f.name, c.structs, p.ty, e)
  }

  /** A function is at fault after those before it have been charged. */
  ghost predicate FunctionWrong(c: Catalog, f: Signature, parameters: nat, nodes: nat, props: nat, e: CatalogError) {
    || (e == InvalidFunctionName(f.name) && !FunctionName(f.name))
    || (e == DescriptionTooLong && |f.description| > MAX_DESCRIPTION)
    || (e == SchemaLimit(ParameterBudgetExceeded) && parameters + Params(f) > MAX_HOST_PARAMETERS)
    || NamesWrong(f, e) || ParamsWrong(c, f, nodes, props, e)
    || TypeWrong(c, f.name, f.result, nodes + Sum(ParamNodes, f.params), props + Sum(ParamProps, f.params), e)
    || RefsWrong(c, f, e)
  }

  /** The first function that is not in order, and its fault. */
  ghost predicate FunctionsWrong(c: Catalog, e: CatalogError) {
    exists i | 0 <= i < |c.functions| ::
      var before := c.functions[..i];
      && (forall f <- before :: FunctionOk(c, f)) && AggregateOk(before)
      && FunctionWrong(c, c.functions[i], Sum(Params, before), Sum(Nodes, before), Sum(Props, before), e)
  }

  ghost predicate OverloadsWrong(c: Catalog, e: CatalogError) {
    exists i, j | 0 <= i < j < |c.functions| ::
      OverloadBytes(c.functions[i]) == OverloadBytes(c.functions[j]) && e == DuplicateSignature(c.functions[j].name)
  }

  predicate CountsWrong(c: Catalog, e: CatalogError) {
    || (e == SchemaLimit(ResourceBudgetExceeded) && |c.resources| > MAX_RESOURCES)
    || (e == SchemaLimit(FunctionBudgetExceeded) && |c.functions| > MAX_HOST_FUNCTIONS)
    || (e == SchemaLimit(StructBudgetExceeded) && |c.structs| > MAX_STRUCTS)
  }

  predicate CountsOk(c: Catalog) { |c.resources| <= MAX_RESOURCES && |c.functions| <= MAX_HOST_FUNCTIONS && |c.structs| <= MAX_STRUCTS }

  ghost predicate ResourcesWrong(c: Catalog, e: CatalogError) {
    || (e == DescriptionTooLong && exists r <- c.resources :: |r.description| > MAX_DESCRIPTION)
    || exists i, j | 0 <= i < j < |c.resources| :: c.resources[i].key == c.resources[j].key && e == DuplicateResourceKey(c.resources[j].key)
  }

  ghost predicate ResourcesOk(c: Catalog) {
    (forall r <- c.resources :: |r.description| <= MAX_DESCRIPTION) && Distinct(ResourceKey, c.resources)
  }

  ghost predicate FunctionsOk(c: Catalog) { (forall f <- c.functions :: FunctionOk(c, f)) && AggregateOk(c.functions) }

  /** What an error says is wrong with a catalog is wrong with it, and the stages before have passed. */
  ghost predicate Wrong(c: Catalog, e: CatalogError) {
    || CountsWrong(c, e)
    || (CountsOk(c) && ResourcesWrong(c, e))
    || (CountsOk(c) && ResourcesOk(c) && StructsWrong(c, e))
    || (CountsOk(c) && ResourcesOk(c) && StructsOk(c) && FunctionsWrong(c, e))
    || (CountsOk(c) && ResourcesOk(c) && StructsOk(c) && FunctionsOk(c) && OverloadsWrong(c, e))
  }

  // ---------------------------------------------------------------- structs

  /** `validate_named_struct_refs`. */
  function RefsError(owner: Str, ss: seq<StructDef>, t: HostType): (o: Option<CatalogError>)
    ensures o.None? <==> RefsOk(ss, t)
    ensures o.Some? ==> RefWrong(owner, ss, t, o.value)
    decreases t, 0
  {
    match t
    case Struct(x, fs) =>
      var d := FindStruct(ss, x);
      if d.None? then Some(UnknownStruct(owner, x))
      else if !SameFields(d.value.fields, fs) then Some(StructFieldMismatch(owner, x))
      else FieldsError(owner, ss, fs)
    case ListOf(u) => RefsError(owner, ss, u)
    case MapOf(u) => RefsError(owner, ss, u)
    case Maybe(u) => RefsError(owner, ss, u)
    case Function(ts, u) =>
      var o := TypesError(owner, ss, ts);
      if o.Some? then o else RefsError(owner, ss, u)
    case _ => None
  }

  function TypesError(owner: Str, ss: seq<StructDef>, ts: seq<HostType>): (o: Option<CatalogError>)
    ensures o.None? <==> forall t <- ts :: RefsOk(ss, t)
    ensures o.Some? ==> exists t <- ts :: RefWrong(owner, ss, t, o.value)
    decreases ts
  {
    if ts == [] then None
    else
      var o := RefsError(owner, ss, ts[0]);
      assert ts[0] in ts;
      if o.Some? then o
      else
        assert ts == [ts[0]] + ts[1..] && forall t <- ts[1..] :: t in ts;
        TypesError(owner, ss, ts[1..])
  }

  function FieldsError(owner: Str, ss: seq<StructDef>, fs: seq<HostField>): (o: Option<CatalogError>)
    ensures o.None? <==> forall f <- fs :: FieldRefsOk(ss, f)
    ensures o.Some? ==> exists f <- fs :: FieldRefWrong(owner, ss, f, o.value)
    decreases fs
  {
    if fs == [] then None
    else
      assert fs[0].ty < fs[0];
      var o := RefsError(owner, ss, fs[0].ty);
      if o.Some? then
        assert !FieldRefsOk(ss, fs[0]) && fs[0] in fs && FieldRefWrong(owner, ss, fs[0], o.value);
        o
      else
        assert fs == [fs[0]] + fs[1..] && forall f <- fs[1..] :: f in fs;
        FieldsError(owner, ss, fs[1..])
  }

  method CheckDeclared(c: Catalog, keys: seq<Str>) returns (missing: Option<Str>)
    ensures missing.None? <==> forall k <- keys :: Declared(c.resources, k)
    ensures missing.Some? ==> missing.value in keys && !Declared(c.resources, missing.value)
  {
    for i := 0 to |keys|
      invariant forall j | 0 <= j < i :: Declared(c.resources, keys[j])
    {
      if !Declared(c.resources, keys[i]) {
        return Some(keys[i]);
      }
    }
    missing := None;
  }

  method CheckField(c: Catalog, owner: Str, f: HostField) returns (r: Surfaced<()>)
    ensures r.Good? <==> FieldOk(c, f)
    ensures r.Bad? ==> FieldWrong(c, owner, f, r.error)
  {
    if !StructIdent(f.name) {
      return Bad(InvalidStructFieldName(owner, f.name));
    }
    var budget := new ComplexityBudget();
    var _, keys := ValidateType(f.ty, budget);
    var missing := CheckDeclared(c, keys);
    if missing.Some? {
      return Bad(UnknownStructResource(owner, missing.value));
    }
    var e := RefsError(owner, c.structs, f.ty);
    if e.Some? {
      return Bad(e.value);
    }
    r := Good(());
  }

  method CheckStruct(c: Catalog, s: StructDef) returns (r: Surfaced<()>)
    ensures r.Good? <==> StructOk(c, s)
    ensures r.Bad? ==> StructWrong(c, s, r.error)
  {
    if !StructIdent(s.name) {
      return Bad(InvalidStructName(s.name));
    }
    for j := 0 to |s.fields|
      invariant forall k | 0 <= k < j :: FieldOk(c, s.fields[k])
      invariant forall i, k | 0 <= i < k < j :: s.fields[i].name != s.fields[k].name
    {
      if exists f <- s.fields[..j] :: f.name == s.fields[j].name {
        var f :| f in s.fields[..j] && f.name == s.fields[j].name;
        assert exists i | 0 <= i < j :: s.fields[i] == f;
        assert !Distinct(FieldName, s.fields);
        return Bad(DuplicateStructField(s.name, s.fields[j].name));
      }
      forall i | 0 <= i < j ensures s.fields[i].name != s.fields[j].name { assert s.fields[i] in s.fields[..j]; }
      r := CheckField(c, s.name, s.fields[j]);
      if r.Bad? {
        return;
      }
    }
    r := Good(());
  }

  method CheckStructs(c: Catalog) returns (r: Surfaced<()>)
    ensures r.Good? <==> StructsOk(c)
    ensures r.Bad? ==> StructsWrong(c, r.error)
  {
    for i := 0 to |c.structs|
      invariant forall k | 0 <= k < i :: StructOk(c, c.structs[k])
      invariant forall j, k | 0 <= j < k < i :: c.structs[j].name != c.structs[k].name
    {
      if exists s <- c.structs[..i] :: s.name == c.structs[i].name {
        var s :| s in c.structs[..i] && s.name == c.structs[i].name;
        assert exists k | 0 <= k < i :: c.structs[k] == s;
        assert !Distinct(StructName, c.structs);
        return Bad(DuplicateStructName(c.structs[i].name));
      }
      forall k | 0 <= k < i ensures c.structs[k].name != c.structs[i].name { assert c.structs[k] in c.structs[..i]; }
      r := CheckStruct(c, c.structs[i]);
      if r.Bad? {
        return;
      }
    }
    r := Good(());
  }

  // ---------------------------------------------------------------- functions

  method CheckType(c: Catalog, owner: Str, t: HostType, budget: ComplexityBudget) returns (r: Surfaced<bool>)
    requires budget.Valid()
    modifies budget`nodes, budget`properties
    ensures budget.Valid()
    ensures r.Good? <==> TypeOk(c, t) && WithinBudget(t, old(budget.nodes), old(budget.properties))
    ensures r.Bad? ==> TypeWrong(c, owner, t, old(budget.nodes), old(budget.properties), r.error)
    ensures r.Good? ==> r.value == (Keys(t) != [])
    ensures r.Good? ==> budget.nodes == old(budget.nodes) + NodesOf(t) && budget.properties == old(budget.properties) + PropsOf(t)
  {
    WalkType(t, budget.nodes, budget.properties);
    var v, keys := ValidateType(t, budget);
    if v.Over? {
      return Bad(SchemaLimit(v.error));
    }
    var missing := CheckDeclared(c, keys);
    if missing.Some? {
      return Bad(UnknownResource(owner, missing.value));
    }
    r := Good(v.value);
  }

  method CheckNames(f: Signature) returns (r: Surfaced<()>)
    ensures r.Good? <==> (forall p <- f.params :: |p.name| <= MAX_NAME) && Distinct(ParamName, f.params)
    ensures r.Bad? ==> NamesWrong(f, r.error)
  {
    var ps := f.params;
    for i := 0 to |ps|
      invariant forall k | 0 <= k < i :: |ps[k].name| <= MAX_NAME
      invariant forall j, k | 0 <= j < k < i :: ps[j].name != ps[k].name
    {
      if |ps[i].name| > MAX_NAME {
        return Bad(ParameterNameTooLong);
      }
      if exists p <- ps[..i] :: p.name == ps[i].name {
        var p :| p in ps[..i] && p.name == ps[i].name;
        assert exists k | 0 <= k < i :: ps[k] == p;
        assert !Distinct(ParamName, ps);
        return Bad(DuplicateParameterName(f.name, ps[i].name));
      }
      forall k | 0 <= k < i ensures ps[k].name != ps[i].name { assert ps[k] in ps[..i]; }
    }
    r := Good(());
  }

  method CheckParams(c: Catalog, f: Signature, budget: ComplexityBudget) returns (r: Surfaced<()>)
    requires budget.Valid()
    modifies budget`nodes, budget`properties
    ensures budget.Valid()
    ensures r.Good? <==> (forall p <- f.params :: TypeOk(c, p.ty) && PassingOk(p))
                         && old(budget.nodes) + Sum(ParamNodes, f.params) <= MAX_HOST_NODES
                         && old(budget.properties) + Sum(ParamProps, f.params) <= MAX_HOST_PROPERTIES
    ensures r.Bad? ==> ParamsWrong(c, f, old(budget.nodes), old(budget.properties), r.error)
    ensures r.Good? ==> budget.nodes == old(budget.nodes) + Sum(ParamNodes, f.params)
                        && budget.properties == old(budget.properties) + Sum(ParamProps, f.params)
  {
    var ps := f.params;
    assert ps[..0] == [];
    hide Keys, NodesOf, PropsOf, DepthOf;
    for i := 0 to |ps|
      invariant budget.Valid() && forall k | 0 <= k < i :: TypeOk(c, ps[k].ty) && PassingOk(ps[k])
      invariant budget.nodes == old(budget.nodes) + Sum(ParamNodes, ps[..i])
      invariant budget.properties == old(budget.properties) + Sum(ParamProps, ps[..i])
    {
      SumPrefix(ParamNodes, ps, i);
      SumPrefix(ParamProps, ps, i);
      var t := CheckType(c, f.name, ps[i].ty, budget);
      if t.Bad? {
        return Bad(t.error);
      }
      if t.value {
        if ps[i].passing == ByValue {
          return Bad(ResourceValuePassing(f.name, ps[i].name));
        }
      } else if ps[i].passing == Borrow || ps[i].passing == BorrowMut {
        return Bad(NonResourcePassing(f.name, ps[i].name));
      }
    }
    assert ps[..|ps|] == ps;
    r := Good(());
  }

  method CheckRefs(c: Catalog, f: Signature) returns (r: Surfaced<()>)
    ensures r.Good? <==> RefsOk(c.structs, f.result) && forall p <- f.params :: RefsOk(c.structs, p.ty)
    ensures r.Bad? ==> RefsWrong(c, f, r.error)
  {
    var e := RefsError(f.name, c.structs, f.result);
    if e.Some? {
      return Bad(e.value);
    }
    for i := 0 to |f.params|
      invariant forall k | 0 <= k < i :: RefsOk(c.structs, f.params[k].ty)
    {
      e := RefsError(f.name, c.structs, f.params[i].ty);
      if e.Some? {
        return Bad(e.value);
      }
    }
    r := Good(());
  }

  /** One function against what the functions before it have left of the budget. */
  method CheckFunction(c: Catalog, f: Signature, budget: ComplexityBudget) returns (r: Surfaced<()>)
    requires budget.Valid()
    modifies budget`nodes, budget`properties, budget`parameters
    ensures budget.Valid()
    ensures r.Good? <==> FunctionOk(c, f) && old(budget.parameters) + Params(f) <= MAX_HOST_PARAMETERS
                         && old(budget.nodes) + Nodes(f) <= MAX_HOST_NODES && old(budget.properties) + Props(f) <= MAX_HOST_PROPERTIES
    ensures r.Bad? ==> FunctionWrong(c, f, old(budget.parameters), old(budget.nodes), old(budget.properties), r.error)
    ensures r.Good? ==> budget.parameters == old(budget.parameters) + Params(f) && budget.nodes == old(budget.nodes) + Nodes(f)
                        && budget.properties == old(budget.properties) + Props(f)
  {
    hide Keys, NodesOf, PropsOf, DepthOf, Sum;
    if !FunctionName(f.name) {
      return Bad(InvalidFunctionName(f.name));
    }
    if |f.description| > MAX_DESCRIPTION {
      return Bad(DescriptionTooLong);
    }
    var charged := budget.ChargeParameters(|f.params|);
    if charged.Over? {
      return Bad(SchemaLimit(charged.error));
    }
    r := CheckNames(f);
    if r.Bad? {
      return;
    }
    r := CheckParams(c, f, budget);
    if r.Bad? {
      return;
    }
    var t := CheckType(c, f.name, f.result, budget);
    if t.Bad? {
      return Bad(t.error);
    }
    r := CheckRefs(c, f);
  }

  method CheckFunctions(c: Catalog, budget: ComplexityBudget) returns (r: Surfaced<()>)
    requires budget.Valid() && budget.nodes == budget.properties == budget.parameters == 0
    modifies budget`nodes, budget`properties, budget`parameters
    ensures r.Good? <==> FunctionsOk(c)
    ensures r.Bad? ==> FunctionsWrong(c, r.error)
  {
    hide FunctionOk, Params, Nodes, Props, Distinct;
    var fs := c.functions;
    assert fs[..0] == [];
    for i := 0 to |fs|
      invariant budget.Valid() && forall k | 0 <= k < i :: FunctionOk(c, fs[k])
      invariant Spent(fs[..i], budget.parameters, budget.nodes, budget.properties)
    {
      hide Sum;
      SumPrefix(Params, fs, i);
      SumPrefix(Nodes, fs, i);
      SumPrefix(Props, fs, i);
      r := CheckFunction(c, fs[i], budget);
      if r.Bad? {
        assert fs[i] in fs;
        return;
      }
    }
    assert fs[..|fs|] == fs;
    r := Good(());
  }

  predicate Spent(fs: seq<Signature>, parameters: nat, nodes: nat, properties: nat) {
    Sum(Params, fs) == parameters && Sum(Nodes, fs) == nodes && Sum(Props, fs) == properties
  }

  method CheckOverloads(c: Catalog) returns (r: Surfaced<()>)
    ensures r.Good? <==> Distinct(OverloadBytes, c.functions)
    ensures r.Bad? ==> OverloadsWrong(c, r.error)
  {
    var fs := c.functions;
    hide OverloadBytes;
    for i := 0 to |fs|
      invariant forall j, k | 0 <= j < k < i :: OverloadBytes(fs[j]) != OverloadBytes(fs[k])
    {
      var identity := OverloadBytes(fs[i]);
      for k := 0 to i
        invariant forall j | 0 <= j < k :: OverloadBytes(fs[j]) != identity
      {
        if OverloadBytes(fs[k]) == identity {
          assert !Distinct(OverloadBytes, fs);
          return Bad(DuplicateSignature(fs[i].name));
        }
      }
    }
    r := Good(());
  }

  method CheckResources(c: Catalog) returns (r: Surfaced<()>)
    ensures r.Good? <==> ResourcesOk(c)
    ensures r.Bad? ==> ResourcesWrong(c, r.error)
  {
    var rs := c.resources;
    for i := 0 to |rs|
      invariant forall k | 0 <= k < i :: |rs[k].description| <= MAX_DESCRIPTION
    {
      if |rs[i].description| > MAX_DESCRIPTION {
        return Bad(DescriptionTooLong);
      }
    }
    for i := 0 to |rs|
      invariant forall j, k | 0 <= j < k < i :: rs[j].key != rs[k].key
    {
      if exists p <- rs[..i] :: p.key == rs[i].key {
        var p :| p in rs[..i] && p.key == rs[i].key;
        assert exists k | 0 <= k < i :: rs[k] == p;
        assert !Distinct(ResourceKey, rs);
        return Bad(DuplicateResourceKey(rs[i].key));
      }
      forall k | 0 <= k < i ensures rs[k].key != rs[i].key { assert rs[k] in rs[..i]; }
    }
    r := Good(());
  }

  /** `validate_surface`. */
  method ValidateSurface(c: Catalog) returns (r: Surfaced<()>)
    ensures r.Good? <==> SurfaceOk(c)
    ensures r.Bad? ==> Wrong(c, r.error)
  {
    hide StructsOk, FunctionOk, AggregateOk, OverloadBytes, StructsWrong, FunctionsWrong, OverloadsWrong, ResourcesWrong;
    var budget := new ComplexityBudget();
    var charged := budget.ChargeResources(|c.resources|);
    if charged.Fine? {
      charged := budget.ChargeFunctions(|c.functions|);
      if charged.Fine? {
        charged := budget.ChargeStructs(|c.structs|);
      }
    }
    if charged.Over? {
      return Bad(SchemaLimit(charged.error));
    }
    r := CheckResources(c);
    if r.Bad? {
      return;
    }
    r := CheckStructs(c);
    if r.Bad? {
      return;
    }
    r := CheckFunctions(c, budget);
    if r.Bad? {
      return;
    }
    r := CheckOverloads(c);
  }
}
