/** The stack walk over types. */
module HostTraversal {
  import opened Bytes
  import opened Seqs
  import opened Wire
  import opened HostTypes
  import opened ImportLimits

  const MAX_RESOURCES: nat := 1_024
  const MAX_STRUCTS: nat := 1_024

  datatype SchemaError =
    | NestingDepthExceeded | NodeBudgetExceeded | PropertyBudgetExceeded | ParameterBudgetExceeded
    | ResourceBudgetExceeded | FunctionBudgetExceeded | StructBudgetExceeded

  datatype Checked<T> = Fine(value: T) | Over(error: SchemaError)

  // ---------------------------------------------------------------- reference definitions

  /** Resource keys in pre-order: callable parameters before the result, fields in declaration order. */
  function Keys(t: HostType): seq<Str>
    decreases t
  {
    match t
    case Handle(x) => [x]
    case ListOf(u) => Keys(u)
    case MapOf(u) => Keys(u)
    case Maybe(u) => Keys(u)
    case Function(ts, u) => KeysOfAll(ts) + Keys(u)
    case Struct(_, fs) => KeysOfFields(fs)
    case Plain(_) => []
  }

  function KeysOfAll(ts: seq<HostType>): seq<Str>
    decreases ts
  {
    if ts == [] then [] else Keys(ts[0]) + KeysOfAll(ts[1..])
  }

  function KeysOfFields(fs: seq<HostField>): seq<Str>
    decreases fs
  {
    if fs == [] then []
    else
      assert fs[0].ty < fs[0];
      Keys(fs[0].ty) + KeysOfFields(fs[1..])
  }

  // ---------------------------------------------------------------- budget

  class ComplexityBudget {
    var nodes: nat
    var properties: nat
    var parameters: nat
    var resources: nat
    var functions: nat
    var structs: nat

    predicate Valid()
      reads this
    {
      nodes <= MAX_HOST_NODES && properties <= MAX_HOST_PROPERTIES && parameters <= MAX_HOST_PARAMETERS
    }

    constructor ()
      ensures Valid() && nodes == properties == parameters == resources == functions == structs == 0
    {
      nodes, properties, parameters, resources, functions, structs := 0, 0, 0, 0, 0, 0;
    }

    method ChargeNodes(n: nat) returns (r: Checked<()>)
      modifies this`nodes
      ensures r == if old(nodes) + n <= MAX_HOST_NODES then Fine(()) else Over(NodeBudgetExceeded)
      ensures nodes == if r.Fine? then old(nodes) + n else old(nodes)
    {
      if nodes + n > MAX_HOST_NODES {
        return Over(NodeBudgetExceeded);
      }
      nodes := nodes + n;
      r := Fine(());
    }

    method ChargeProperties(n: nat) returns (r: Checked<()>)
      modifies this`properties
      ensures r == if old(properties) + n <= MAX_HOST_PROPERTIES then Fine(()) else Over(PropertyBudgetExceeded)
      ensures properties == if r.Fine? then old(properties) + n else old(properties)
    {
      if properties + n > MAX_HOST_PROPERTIES {
        return Over(PropertyBudgetExceeded);
      }
      properties := properties + n;
      r := Fine(());
    }

    method ChargeParameters(n: nat) returns (r: Checked<()>)
      modifies this`parameters
      ensures r == if old(parameters) + n <= MAX_HOST_PARAMETERS then Fine(()) else Over(ParameterBudgetExceeded)
      ensures parameters == if r.Fine? then old(parameters) + n else old(parameters)
    {
      if parameters + n > MAX_HOST_PARAMETERS {
        return Over(ParameterBudgetExceeded);
      }
      parameters := parameters + n;
      r := Fine(());
    }

    method ChargeResources(n: nat) returns (r: Checked<()>)
      modifies this`resources
      ensures r == if old(resources) + n <= MAX_RESOURCES then Fine(()) else Over(ResourceBudgetExceeded)
      ensures resources == if r.Fine? then old(resources) + n else old(resources)
    {
      if resources + n > MAX_RESOURCES {
        return Over(ResourceBudgetExceeded);
      }
      resources := resources + n;
      r := Fine(());
    }

    method ChargeFunctions(n: nat) returns (r: Checked<()>)
      modifies this`functions
      ensures r == if old(functions) + n <= MAX_HOST_FUNCTIONS then Fine(()) else Over(FunctionBudgetExceeded)
      ensures functions == if r.Fine? then old(functions) + n else old(functions)
    {
      if functions + n > MAX_HOST_FUNCTIONS {
        return Over(FunctionBudgetExceeded);
      }
      functions := functions + n;
      r := Fine(());
    }

    method ChargeStructs(n: nat) returns (r: Checked<()>)
      modifies this`structs
      ensures r == if old(structs) + n <= MAX_STRUCTS then Fine(()) else Over(StructBudgetExceeded)
      ensures structs == if r.Fine? then old(structs) + n else old(structs)
    {
      if structs + n > MAX_STRUCTS {
        return Over(StructBudgetExceeded);
      }
      structs := structs + n;
      r := Fine(());
    }
  }

  // ---------------------------------------------------------------- worklist

  /** A type still to visit and the depth it is at; the next one is the last of the list. */
  datatype Work = Work(t: HostType, depth: nat)

  function PendingNodes(ws: seq<Work>): nat {
    if ws == [] then 0 else NodesOf(ws[|ws| - 1].t) + PendingNodes(ws[..|ws| - 1])
  }

  function PendingProps(ws: seq<Work>): nat {
    if ws == [] then 0 else PropsOf(ws[|ws| - 1].t) + PendingProps(ws[..|ws| - 1])
  }

  function PendingKeys(ws: seq<Work>): seq<Str> {
    if ws == [] then [] else Keys(ws[|ws| - 1].t) + PendingKeys(ws[..|ws| - 1])
  }

  /** Work for each type, the first on top. */
  function Stack(ts: seq<HostType>, depth: nat): seq<Work> {
    if ts == [] then [] else Stack(ts[1..], depth) + [Work(ts[0], depth)]
  }

  function StackFields(fs: seq<HostField>, depth: nat): seq<Work> {
    if fs == [] then [] else StackFields(fs[1..], depth) + [Work(fs[0].ty, depth)]
  }

  /** The work that replaces a node: its children, in the order they are visited. */
  function Children(w: Work): seq<Work> {
    match w.t
    case ListOf(u) => [Work(u, w.depth + 1)]
    case MapOf(u) => [Work(u, w.depth + 1)]
    case Maybe(u) => [Work(u, w.depth + 1)]
    case Function(ts, u) => [Work(u, w.depth + 1)] + Stack(ts, w.depth + 1)
    case Struct(_, fs) => StackFields(fs, w.depth + 1)
    case _ => []
  }

  predicate WorkFits(w: Work) { w.depth + DepthOf(w.t) <= MAX_HOST_DEPTH + 1 }
  predicate Shallow(ws: seq<Work>) { forall w <- ws :: WorkFits(w) }

  /** Work with `ts` on top, the first of them next. */
  ghost predicate Stacked(ws: seq<Work>, nodes: nat, props: nat, keys: seq<Str>, shallow: bool) {
    PendingNodes(ws) == nodes && PendingProps(ws) == props && PendingKeys(ws) == keys && Shallow(ws) == shallow
  }

  lemma PushOne(ws: seq<Work>, t: HostType, depth: nat)
    ensures Stacked(ws + [Work(t, depth)], NodesOf(t) + PendingNodes(ws), PropsOf(t) + PendingProps(ws),
                    Keys(t) + PendingKeys(ws), Shallow(ws) && WorkFits(Work(t, depth)))
  {
    var out := ws + [Work(t, depth)];
    assert out[..|out| - 1] == ws;
    assert Shallow(out) == (Shallow(ws) && WorkFits(Work(t, depth))) by {
      if Shallow(out) {
        assert out[|ws|] in out;
        forall w <- ws ensures WorkFits(w) { assert w in out; }
      }
    }
  }

  lemma {:induction false} StackTypes(ws: seq<Work>, ts: seq<HostType>, depth: nat)
    ensures Stacked(ws + Stack(ts, depth), NodesOfAll(ts) + PendingNodes(ws), PropsOfAll(ts) + PendingProps(ws), KeysOfAll(ts) + PendingKeys(ws),
                    Shallow(ws) && (ts != [] ==> depth + DepthOfAll(ts) <= MAX_HOST_DEPTH + 1))
  {
    hide PendingNodes, PendingProps, PendingKeys, Shallow;
    if ts == [] {
      assert ws + Stack(ts, depth) == ws;
      assert KeysOfAll(ts) + PendingKeys(ws) == PendingKeys(ws);
    } else {
      var rest := ws + Stack(ts[1..], depth);
      StackTypes(ws, ts[1..], depth);
      PushOne(rest, ts[0], depth);
      assert ws + Stack(ts, depth) == rest + [Work(ts[0], depth)];
      assert Keys(ts[0]) + (KeysOfAll(ts[1..]) + PendingKeys(ws)) == KeysOfAll(ts) + PendingKeys(ws);
      assert ts[1..] == [] ==> DepthOfAll(ts[1..]) == 0;
    }
  }

  lemma {:induction false} StackTheFields(ws: seq<Work>, fs: seq<HostField>, depth: nat)
    ensures Stacked(ws + StackFields(fs, depth), NodesOfFields(fs) + PendingNodes(ws), PropsOfFields(fs) + PendingProps(ws),
                    KeysOfFields(fs) + PendingKeys(ws), Shallow(ws) && (fs != [] ==> depth + DepthOfFields(fs) <= MAX_HOST_DEPTH + 1))
  {
    hide PendingNodes, PendingProps, PendingKeys, Shallow;
    if fs == [] {
      assert ws + StackFields(fs, depth) == ws;
      assert KeysOfFields(fs) + PendingKeys(ws) == PendingKeys(ws);
    } else {
      var rest := ws + StackFields(fs[1..], depth);
      StackTheFields(ws, fs[1..], depth);
      PushOne(rest, fs[0].ty, depth);
      assert ws + StackFields(fs, depth) == rest + [Work(fs[0].ty, depth)];
      assert Keys(fs[0].ty) + (KeysOfFields(fs[1..]) + PendingKeys(ws)) == KeysOfFields(fs) + PendingKeys(ws);
      assert fs[1..] == [] ==> DepthOfFields(fs[1..]) == 0;
    }
  }

  /** Callable parameters are pushed in reverse, so that the first is visited first. */
  method PushTypes(ws: seq<Work>, ts: seq<HostType>, depth: nat) returns (out: seq<Work>)
    ensures out == ws + Stack(ts, depth)
  {
    out := ws;
    for i := |ts| downto 0
      invariant out == ws + Stack(ts[i..], depth)
    {
      out := out + [Work(ts[i], depth)];
      assert ts[i..][1..] == ts[i + 1..];
    }
    assert ts[0..] == ts;
  }

  method PushFields(ws: seq<Work>, fs: seq<HostField>, depth: nat) returns (out: seq<Work>)
    ensures out == ws + StackFields(fs, depth)
  {
    out := ws;
    for i := |fs| downto 0
      invariant out == ws + StackFields(fs[i..], depth)
    {
      out := out + [Work(fs[i].ty, depth)];
      assert fs[i..][1..] == fs[i + 1..];
    }
    assert fs[0..] == fs;
  }

  lemma FunctionFits(ts: seq<HostType>, u: HostType, depth: nat)
    ensures WorkFits(Work(Function(ts, u), depth)) <==>
            WorkFits(Work(u, depth + 1)) && (ts != [] ==> depth + 1 + DepthOfAll(ts) <= MAX_HOST_DEPTH + 1)
  {
    assert DepthOf(Function(ts, u)) == 1 + Max(DepthOfAll(ts), DepthOf(u));
    assert ts == [] ==> DepthOfAll(ts) == 0;
  }

  /** The work is as if the node had been taken off and its children put on. */
  ghost predicate Unfolds(ws: seq<Work>, w: Work) {
    Stacked(ws + Children(w), NodesOf(w.t) - 1 + PendingNodes(ws), PropsOf(w.t) - OwnProps(w.t) + PendingProps(ws),
            (if w.t.Handle? then [] else Keys(w.t)) + PendingKeys(ws), Shallow(ws) && WorkFits(w))
  }

  lemma FunctionStacked(ws: seq<Work>, w: Work)
    requires w.t.Function?
    ensures Unfolds(ws, w)
  {
    hide PendingNodes, PendingProps, PendingKeys, Shallow;
    var under := ws + [Work(w.t.result, w.depth + 1)];
    PushOne(ws, w.t.result, w.depth + 1);
    StackTypes(under, w.t.params, w.depth + 1);
    assert under + Stack(w.t.params, w.depth + 1) == ws + Children(w);
    assert KeysOfAll(w.t.params) + (Keys(w.t.result) + PendingKeys(ws)) == Keys(w.t) + PendingKeys(ws);
    FunctionFits(w.t.params, w.t.result, w.depth);
  }

  lemma StructStacked(ws: seq<Work>, w: Work)
    requires w.t.Struct? && w.depth <= MAX_HOST_DEPTH
    ensures Unfolds(ws, w)
  {
    hide PendingNodes, PendingProps, PendingKeys, Shallow;
    StackTheFields(ws, w.t.fields, w.depth + 1);
    assert DepthOf(w.t) == 1 + DepthOfFields(w.t.fields);
    assert w.t.fields == [] ==> DepthOfFields(w.t.fields) == 0;
  }

  /** A node's children hold everything below it. */
  lemma ChildrenStacked(ws: seq<Work>, w: Work)
    requires w.depth <= MAX_HOST_DEPTH
    ensures Unfolds(ws, w)
  {
    hide PendingNodes, PendingProps, PendingKeys, Shallow;
    match w.t {
      case ListOf(u) => PushOne(ws, u, w.depth + 1);
      case MapOf(u) => PushOne(ws, u, w.depth + 1);
      case Maybe(u) => PushOne(ws, u, w.depth + 1);
      case Function(_, _) => FunctionStacked(ws, w);
      case Struct(_, _) => StructStacked(ws, w);
      case _ =>
        assert ws + Children(w) == ws;
        assert [] + PendingKeys(ws) == PendingKeys(ws);
        assert PropsOf(w.t) == OwnProps(w.t) && NodesOf(w.t) == 1 && WorkFits(w);
    }
  }

  method Expand(ws: seq<Work>, w: Work) returns (out: seq<Work>)
    ensures out == ws + Children(w)
  {
    match w.t {
      case ListOf(u) => out := ws + [Work(u, w.depth + 1)];
      case MapOf(u) => out := ws + [Work(u, w.depth + 1)];
      case Maybe(u) => out := ws + [Work(u, w.depth + 1)];
      case Function(ts, u) => out := PushTypes(ws + [Work(u, w.depth + 1)], ts, w.depth + 1);
      case Struct(_, fs) => out := PushFields(ws, fs, w.depth + 1);
      case _ => out := ws;
    }
  }

  /** Properties a node charges itself. */
  function OwnProps(t: HostType): (n: nat)
    ensures n <= PropsOf(t)
  {
    match t
    case Function(ts, _) => |ts|
    case Struct(_, fs) => |fs|
    case _ => 0
  }

  /** The limit an error names is really passed. */
  predicate Exceeds(t: HostType, nodes: nat, props: nat, e: SchemaError) {
    match e
    case NestingDepthExceeded => DepthOf(t) > MAX_HOST_DEPTH
    case NodeBudgetExceeded => nodes + NodesOf(t) > MAX_HOST_NODES
    case PropertyBudgetExceeded => props + PropsOf(t) > MAX_HOST_PROPERTIES
    case _ => false
  }

  /** Depth, nodes and properties are within limits, given what is charged already. */
  predicate WithinBudget(t: HostType, nodes: nat, props: nat) {
    DepthOf(t) <= MAX_HOST_DEPTH && nodes + NodesOf(t) <= MAX_HOST_NODES && props + PropsOf(t) <= MAX_HOST_PROPERTIES
  }

  /** What a walk comes to: the verdict, the keys reported so far and the budget charged so far. */
  datatype Walked = Walked(verdict: Checked<bool>, keys: seq<Str>, nodes: nat, props: nat)

  function Walk(ws: seq<Work>, nodes: nat, props: nat, keys: seq<Str>): Walked
    decreases PendingNodes(ws)
  {
    if ws == [] then Walked(Fine(keys != []), keys, nodes, props)
    else
      var w, rest := ws[|ws| - 1], ws[..|ws| - 1];
      if w.depth > MAX_HOST_DEPTH then Walked(Over(NestingDepthExceeded), keys, nodes, props)
      else if nodes + 1 > MAX_HOST_NODES then Walked(Over(NodeBudgetExceeded), keys, nodes, props)
      else if props + OwnProps(w.t) > MAX_HOST_PROPERTIES then Walked(Over(PropertyBudgetExceeded), keys, nodes + 1, props)
      else
        ChildrenStacked(rest, w);
        Taken(ws);
        Walk(rest + Children(w), nodes + 1, props + OwnProps(w.t), if w.t.Handle? then keys + [w.t.key] else keys)
  }

  /** The walk accepts exactly within limits and then has charged and reported everything pending. */
  lemma {:induction false} WalkExact(ws: seq<Work>, nodes: nat, props: nat, keys: seq<Str>)
    requires nodes <= MAX_HOST_NODES && props <= MAX_HOST_PROPERTIES
    ensures var r := Walk(ws, nodes, props, keys);
            && (r.verdict.Fine? <==>
                Shallow(ws) && nodes + PendingNodes(ws) <= MAX_HOST_NODES && props + PendingProps(ws) <= MAX_HOST_PROPERTIES)
            && (r.verdict.Fine? ==> r == Walked(Fine(keys + PendingKeys(ws) != []), keys + PendingKeys(ws),
                                                nodes + PendingNodes(ws), props + PendingProps(ws)))
            && (r.verdict == Over(NestingDepthExceeded) ==> !Shallow(ws))
            && (r.verdict == Over(NodeBudgetExceeded) ==> nodes + PendingNodes(ws) > MAX_HOST_NODES)
            && (r.verdict == Over(PropertyBudgetExceeded) ==> props + PendingProps(ws) > MAX_HOST_PROPERTIES)
            && r.keys <= keys + PendingKeys(ws) && r.nodes <= MAX_HOST_NODES && r.props <= MAX_HOST_PROPERTIES
    decreases PendingNodes(ws)
  {
    hide PendingNodes, PendingProps, PendingKeys, Shallow, Children, Keys, NodesOf, PropsOf, DepthOf, OwnProps;
    if ws == [] {
      Empty();
      assert keys + [] == keys;
    } else {
      var w, rest := ws[|ws| - 1], ws[..|ws| - 1];
      Taken(ws);
      if w.depth <= MAX_HOST_DEPTH && nodes + 1 <= MAX_HOST_NODES && props + OwnProps(w.t) <= MAX_HOST_PROPERTIES {
        ChildrenStacked(rest, w);
        HandleKeys(w.t, keys, PendingKeys(rest));
        WalkExact(rest + Children(w), nodes + 1, props + OwnProps(w.t), if w.t.Handle? then keys + [w.t.key] else keys);
      }
    }
  }

  lemma Empty()
    ensures PendingNodes([]) == 0 && PendingProps([]) == 0 && PendingKeys([]) == [] && Shallow([])
  {
  }

  /** A handle is reported when it is taken; any other node's keys are its children's. */
  lemma HandleKeys(t: HostType, keys: seq<Str>, rest: seq<Str>)
    ensures (if t.Handle? then keys + [t.key] else keys) + ((if t.Handle? then [] else Keys(t)) + rest) == keys + (Keys(t) + rest)
  {
  }

  /** The keys a walk from an empty budget reports, all of them or those before a limit. */
  function Collected(t: HostType): seq<Str> { Walk([Work(t, 1)], 0, 0, []).keys }

  /** A walk over one type: it accepts exactly the types within limits, charges exactly their nodes and properties, reports
      their resource keys in pre-order and tells whether there are any. */
  lemma WalkType(t: HostType, nodes: nat, props: nat)
    requires nodes <= MAX_HOST_NODES && props <= MAX_HOST_PROPERTIES
    ensures var r := Walk([Work(t, 1)], nodes, props, []);
            && (r.verdict.Fine? <==> WithinBudget(t, nodes, props))
            && (r.verdict.Fine? ==> r == Walked(Fine(Keys(t) != []), Keys(t), nodes + NodesOf(t), props + PropsOf(t)))
            && (r.verdict.Over? ==> Exceeds(t, nodes, props, r.verdict.error))
            && r.keys <= Keys(t)
  {
    PushOne([], t, 1);
    assert [] + [Work(t, 1)] == [Work(t, 1)];
    assert [] + (Keys(t) + []) == Keys(t);
    WalkExact([Work(t, 1)], nodes, props, []);
    WalkErrors([Work(t, 1)], nodes, props, []);
  }

  lemma {:induction false} WalkErrors(ws: seq<Work>, nodes: nat, props: nat, keys: seq<Str>)
    ensures var v := Walk(ws, nodes, props, keys).verdict;
            v.Over? ==> v.error in {NestingDepthExceeded, NodeBudgetExceeded, PropertyBudgetExceeded}
    decreases PendingNodes(ws)
  {
    if ws != [] {
      var w, rest := ws[|ws| - 1], ws[..|ws| - 1];
      Taken(ws);
      if w.depth <= MAX_HOST_DEPTH && nodes + 1 <= MAX_HOST_NODES && props + OwnProps(w.t) <= MAX_HOST_PROPERTIES {
        ChildrenStacked(rest, w);
        WalkErrors(rest + Children(w), nodes + 1, props + OwnProps(w.t), if w.t.Handle? then keys + [w.t.key] else keys);
      }
    }
  }

  /** `validate_type_schema_with_budget`: the loop is the walk. */
  method ValidateType(t: HostType, budget: ComplexityBudget) returns (r: Checked<bool>, keys: seq<Str>)
    requires budget.Valid()
    modifies budget`nodes, budget`properties
    ensures budget.Valid()
    ensures Walk([Work(t, 1)], old(budget.nodes), old(budget.properties), []) == Walked(r, keys, budget.nodes, budget.properties)
  {
    hide PendingNodes, PendingProps, PendingKeys, Shallow, Children, Keys, NodesOf, PropsOf, DepthOf;
    var pending := [Work(t, 1)];
    var contains := false;
    keys := [];
    while pending != []
      invariant budget.Valid() && contains == (keys != [])
      invariant Walk(pending, budget.nodes, budget.properties, keys)
             == Walk([Work(t, 1)], old(budget.nodes), old(budget.properties), [])
      decreases PendingNodes(pending)
    {
      var w := pending[|pending| - 1];
      Taken(pending);
      pending := pending[..|pending| - 1];
      if w.depth > MAX_HOST_DEPTH {
        r := Over(NestingDepthExceeded);
        return;
      }
      var charged := budget.ChargeNodes(1);
      if charged.Over? {
        r := Over(charged.error);
        return;
      }
      if w.t.Function? || w.t.Struct? {
        charged := budget.ChargeProperties(OwnProps(w.t));
        if charged.Over? {
          r := Over(charged.error);
          return;
        }
      }
      ChildrenStacked(pending, w);
      pending := Expand(pending, w);
      if w.t.Handle? {
        contains := true;
        keys := keys + [w.t.key];
      }
    }
    r := Fine(contains);
  }

  /** Taking the top of the work. */
  lemma Taken(ws: seq<Work>)
    requires ws != []
    ensures var w, rest := ws[|ws| - 1], ws[..|ws| - 1];
            Stacked(ws, NodesOf(w.t) + PendingNodes(rest), PropsOf(w.t) + PendingProps(rest), Keys(w.t) + PendingKeys(rest),
                    Shallow(rest) && WorkFits(w))
  {
    assert ws == ws[..|ws| - 1] + [ws[|ws| - 1]];
    PushOne(ws[..|ws| - 1], ws[|ws| - 1].t, ws[|ws| - 1].depth);
  }
}
