/** Host type schemas and the three measures every boundary bounds: depth, nodes and properties. */
module HostTypes {
  import opened Bytes
  import opened Seqs
  import opened Schemas

  datatype HostType =
    | Plain(kind: Scalar)
    | ListOf(item: HostType)
    | MapOf(item: HostType)
    | Maybe(item: HostType)
    | Function(params: seq<HostType>, result: HostType)
    | Handle(key: Str)
    | Struct(name: Str, fields: seq<HostField>)

  datatype HostField = HostField(name: Str, ty: HostType)

  datatype Passing = ByValue | Borrow | BorrowMut | TakeOwned

  /** Nodes on the longest path, counting the root as one. */
  function DepthOf(t: HostType): (d: nat)
    ensures d >= 1
    decreases t
  {
    match t
    case ListOf(u) => 1 + DepthOf(u)
    case MapOf(u) => 1 + DepthOf(u)
    case Maybe(u) => 1 + DepthOf(u)
    case Function(ts, u) => 1 + Max(DepthOfAll(ts), DepthOf(u))
    case Struct(_, fs) => 1 + DepthOfFields(fs)
    case _ => 1
  }

  function DepthOfAll(ts: seq<HostType>): nat
    decreases ts
  {
    if ts == [] then 0 else Max(DepthOf(ts[0]), DepthOfAll(ts[1..]))
  }

  function DepthOfFields(fs: seq<HostField>): nat
    decreases fs
  {
    if fs == [] then 0
    else
      assert fs[0].ty < fs[0];
      Max(DepthOf(fs[0].ty), DepthOfFields(fs[1..]))
  }

  function NodesOf(t: HostType): (n: nat)
    ensures n >= 1
    decreases t
  {
    match t
    case ListOf(u) => 1 + NodesOf(u)
    case MapOf(u) => 1 + NodesOf(u)
    case Maybe(u) => 1 + NodesOf(u)
    case Function(ts, u) => 1 + NodesOfAll(ts) + NodesOf(u)
    case Struct(_, fs) => 1 + NodesOfFields(fs)
    case _ => 1
  }

  function NodesOfAll(ts: seq<HostType>): nat
    decreases ts
  {
    if ts == [] then 0 else NodesOf(ts[0]) + NodesOfAll(ts[1..])
  }

  function NodesOfFields(fs: seq<HostField>): nat
    decreases fs
  {
    if fs == [] then 0
    else
      assert fs[0].ty < fs[0];
      NodesOf(fs[0].ty) + NodesOfFields(fs[1..])
  }

  /** Callable parameters and struct fields, over the whole tree. */
  function PropsOf(t: HostType): nat
    decreases t
  {
    match t
    case ListOf(u) => PropsOf(u)
    case MapOf(u) => PropsOf(u)
    case Maybe(u) => PropsOf(u)
    case Function(ts, u) => |ts| + PropsOfAll(ts) + PropsOf(u)
    case Struct(_, fs) => |fs| + PropsOfFields(fs)
    case _ => 0
  }

  function PropsOfAll(ts: seq<HostType>): nat
    decreases ts
  {
    if ts == [] then 0 else PropsOf(ts[0]) + PropsOfAll(ts[1..])
  }

  function PropsOfFields(fs: seq<HostField>): nat
    decreases fs
  {
    if fs == [] then 0
    else
      assert fs[0].ty < fs[0];
      PropsOf(fs[0].ty) + PropsOfFields(fs[1..])
  }

  datatype ImportParam = ImportParam(name: Str, ty: HostType, passing: Passing)
  datatype ImportSchema = ImportSchema(name: Str, params: seq<ImportParam>, result: HostType, fingerprint: u64)

  function ParamNodes(p: ImportParam): nat { NodesOf(p.ty) }
  function ParamProps(p: ImportParam): nat { PropsOf(p.ty) }
}
