/** Import validation. */
module ImportChecks {
  import opened Bytes
  import opened Seqs
  import opened Wire
  import opened HostTypes
  import opened ImportLimits
  import opened HostTraversal
  import opened NameChecks

  /** Why imports are refused. */
  datatype ImportFault = BadName(verdict: NameVerdict) | ParameterTooLong(len: nat) | Limit(error: SchemaError)

  /** What is charged to the three running totals before an import. */
  datatype Totals = Totals(parameters: nat, nodes: nat, properties: nat)

  /** A limit on parameter types is passed: a name, a depth, or a total on top of what is charged. */
  ghost predicate ParamsFault(ps: seq<ImportParam>, nodes: nat, properties: nat, e: ImportFault) {
    match e
    case ParameterTooLong(n) => exists p <- ps :: |p.name| == n > MAX_NAME
    case Limit(NestingDepthExceeded) => exists p <- ps :: DepthOf(p.ty) > MAX_HOST_DEPTH
    case Limit(NodeBudgetExceeded) => nodes + Sum(ParamNodes, ps) > MAX_HOST_NODES
    case Limit(PropertyBudgetExceeded) => properties + Sum(ParamProps, ps) > MAX_HOST_PROPERTIES
    case _ => false
  }

  /** What a fault says of an import, on top of what is charged, is true of it. */
  ghost predicate ShapeFault(h: ImportSchema, before: Totals, e: ImportFault) {
    match e
    case BadName(v) => Faulty(h.name, v)
    case ParameterTooLong(n) => exists p <- h.params :: |p.name| == n > MAX_NAME
    case Limit(ParameterBudgetExceeded) => before.parameters + ImportParams(h) > MAX_HOST_PARAMETERS
    case Limit(NestingDepthExceeded) => (exists p <- h.params :: DepthOf(p.ty) > MAX_HOST_DEPTH) || DepthOf(h.result) > MAX_HOST_DEPTH
    case Limit(NodeBudgetExceeded) => before.nodes + ImportNodes(h) > MAX_HOST_NODES
    case Limit(PropertyBudgetExceeded) => before.properties + ImportProps(h) > MAX_HOST_PROPERTIES
    case Limit(_) => false
  }

  method CheckParamTypes(ps: seq<ImportParam>, budget: ComplexityBudget) returns (fault: Option<ImportFault>)
    requires budget.Valid()
    modifies budget`nodes, budget`properties
    ensures budget.Valid()
    ensures fault.None? <==> (forall p <- ps :: |p.name| <= MAX_NAME && DepthOf(p.ty) <= MAX_HOST_DEPTH)
                             && old(budget.nodes) + Sum(ParamNodes, ps) <= MAX_HOST_NODES
                             && old(budget.properties) + Sum(ParamProps, ps) <= MAX_HOST_PROPERTIES
    ensures fault.None? ==> budget.nodes == old(budget.nodes) + Sum(ParamNodes, ps) && budget.properties == old(budget.properties) + Sum(ParamProps, ps)
    ensures fault.Some? ==> ParamsFault(ps, old(budget.nodes), old(budget.properties), fault.value)
  {
    hide Keys, NodesOf, PropsOf, DepthOf, Walk, Sum, ParamsFault;
    SumNone(ParamNodes, ps);
    SumNone(ParamProps, ps);
    for i := 0 to |ps|
      invariant budget.Valid() && forall k | 0 <= k < i :: |ps[k].name| <= MAX_NAME && DepthOf(ps[k].ty) <= MAX_HOST_DEPTH
      invariant budget.nodes == old(budget.nodes) + Sum(ParamNodes, ps[..i])
      invariant budget.properties == old(budget.properties) + Sum(ParamProps, ps[..i])
    {
      assert ps[i] in ps;
      if |ps[i].name| > MAX_NAME {
        NameFault(ps, ps[i]);
        return Some(ParameterTooLong(|ps[i].name|));
      }
      SumPrefix(ParamNodes, ps, i);
      SumPrefix(ParamProps, ps, i);
      WalkType(ps[i].ty, budget.nodes, budget.properties);
      var v, _ := ValidateType(ps[i].ty, budget);
      if v.Over? {
        TypeFault(ps, i, old(budget.nodes), old(budget.properties), v.error);
        return Some(Limit(v.error));
      }
    }
    assert ps[..|ps|] == ps;
    fault := None;
  }

  lemma NameFault(ps: seq<ImportParam>, p: ImportParam)
    requires p in ps && |p.name| > MAX_NAME
    ensures forall n: nat, m: nat :: ParamsFault(ps, n, m, ParameterTooLong(|p.name|))
  {
  }

  lemma TypeFault(ps: seq<ImportParam>, i: nat, nodes: nat, properties: nat, e: SchemaError)
    requires i < |ps| && Exceeds(ps[i].ty, nodes + Sum(ParamNodes, ps[..i]), properties + Sum(ParamProps, ps[..i]), e)
    ensures ParamsFault(ps, nodes, properties, Limit(e))
  {
    SumPrefix(ParamNodes, ps, i);
    SumPrefix(ParamProps, ps, i);
    assert ps[i] in ps;
  }

  /** `validate_import_shape`. */
  method CheckImport(h: ImportSchema, budget: ComplexityBudget) returns (fault: Option<ImportFault>)
    requires budget.Valid()
    modifies budget`nodes, budget`properties, budget`parameters
    ensures budget.Valid()
    ensures fault.None? <==> ShapeOk(h) && old(budget.parameters) + ImportParams(h) <= MAX_HOST_PARAMETERS
                             && old(budget.nodes) + ImportNodes(h) <= MAX_HOST_NODES && old(budget.properties) + ImportProps(h) <= MAX_HOST_PROPERTIES
    ensures fault.None? ==> budget.parameters == old(budget.parameters) + ImportParams(h) && budget.nodes == old(budget.nodes) + ImportNodes(h)
                            && budget.properties == old(budget.properties) + ImportProps(h)
    ensures fault.Some? ==> ShapeFault(h, Totals(old(budget.parameters), old(budget.nodes), old(budget.properties)), fault.value)
  {
    hide Keys, NodesOf, PropsOf, DepthOf, Walk, Sum, Faulty;
    var name := ValidateFunctionName(h.name);
    if !name.NameFine? {
      return Some(BadName(name));
    }
    var charged := budget.ChargeParameters(|h.params|);
    if charged.Over? {
      return Some(Limit(charged.error));
    }
    fault := CheckParamTypes(h.params, budget);
    if fault.Some? {
      return;
    }
    WalkType(h.result, budget.nodes, budget.properties);
    var v, _ := ValidateType(h.result, budget);
    fault := if v.Over? then Some(Limit(v.error)) else None;
  }

  /** `HostImportSchema::validate`: one import against a fresh budget. */
  method ValidateImport(h: ImportSchema) returns (fault: Option<ImportFault>)
    ensures fault.None? <==> ImportValid(h)
    ensures fault.Some? ==> ShapeFault(h, Totals(0, 0, 0), fault.value)
  {
    var budget := new ComplexityBudget();
    fault := CheckImport(h, budget);
  }

  /** The import at `i` is the first that cannot be added, and the fault is its. */
  ghost predicate FaultAt(hs: seq<ImportSchema>, i: nat, e: ImportFault) {
    && i < |hs| && AggregateValid(hs[..i])
    && if e == Limit(FunctionBudgetExceeded) then i == MAX_HOST_FUNCTIONS
       else i < MAX_HOST_FUNCTIONS
            && ShapeFault(hs[i], Totals(Sum(ImportParams, hs[..i]), Sum(ImportNodes, hs[..i]), Sum(ImportProps, hs[..i])), e)
  }

  /** `validate_host_import_schemas`: all imports against one budget; a fault is that of the first import at fault. */
  method ValidateImports(hs: seq<ImportSchema>) returns (fault: Option<ImportFault>)
    ensures fault.None? <==> AggregateValid(hs)
    ensures fault.Some? ==> exists i: nat :: FaultAt(hs, i, fault.value)
  {
    hide ShapeOk, ImportParams, ImportNodes, ImportProps, ShapeFault;
    var budget := new ComplexityBudget();
    assert hs[..0] == [];
    for i := 0 to |hs|
      invariant budget.Valid() && budget.functions == i <= MAX_HOST_FUNCTIONS && forall k | 0 <= k < i :: ShapeOk(hs[k])
      invariant Charged(hs[..i], budget.parameters, budget.nodes, budget.properties)
    {
      hide Sum;
      assert AggregateValid(hs[..i]);
      var charged := budget.ChargeFunctions(1);
      if charged.Over? {
        assert FaultAt(hs, i, Limit(charged.error));
        return Some(Limit(charged.error));
      }
      SumPrefix(ImportParams, hs, i);
      SumPrefix(ImportNodes, hs, i);
      SumPrefix(ImportProps, hs, i);
      fault := CheckImport(hs[i], budget);
      if fault.Some? {
        assert hs[i] in hs;
        NoFunctionLimit(hs[i], Totals(Sum(ImportParams, hs[..i]), Sum(ImportNodes, hs[..i]), Sum(ImportProps, hs[..i])), fault.value);
        assert FaultAt(hs, i, fault.value);
        return;
      }
    }
    assert hs[..|hs|] == hs;
    fault := None;
  }

  lemma NoFunctionLimit(h: ImportSchema, before: Totals, e: ImportFault)
    requires ShapeFault(h, before, e)
    ensures e != Limit(FunctionBudgetExceeded)
  {
  }

  predicate Charged(hs: seq<ImportSchema>, parameters: nat, nodes: nat, properties: nat) {
    Sum(ImportParams, hs) == parameters && Sum(ImportNodes, hs) == nodes && Sum(ImportProps, hs) == properties
  }
}
