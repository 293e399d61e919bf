/** The compiled program and its metadata. Enumerations with a fixed representation are their discriminants. */
module Programs {
  import opened Bytes
  import opened Wire
  import opened Schemas
  import opened HostTypes
  import Constants

  type ValueType = x: int | 0 <= x < 10
  type CallableKind = x: int | 0 <= x < 3
  type CaptureMode = x: int | 0 <= x < 4

  datatype HostImport = HostImport(name: Str, arity: u8, result: ValueType)

  datatype Operand = Operand(offset: u32, lhs: ValueType, rhs: ValueType)

  datatype TypeMap = TypeMap(
    strict: bool,
    locals: seq<ValueType>,
    schemas: seq<Option<TypeSchema>>,
    callables: seq<bool>,
    optionals: seq<bool>,
    operands: seq<Operand>)

  datatype Line = Line(offset: u32, line: u32)
  datatype Arg = Arg(name: Str, position: u8)
  datatype DebugFunction = DebugFunction(name: Str, args: seq<Arg>)
  datatype Local = Local(name: Str, index: u8, declared: Option<u32>, last: Option<u32>)
  datatype DebugInfo = DebugInfo(source: Option<Str>, lines: seq<Line>, functions: seq<DebugFunction>, locals: seq<Local>)

  datatype ScriptFunction = ScriptFunction(entry: u32, end: u32)
  datatype Target = Script(id: u32) | Host(index: u16)

  datatype Prototype = Prototype(
    kind: CallableKind,
    target: Target,
    arity: u8,
    frameLocals: nat,
    params: seq<u16>,
    sources: seq<u16>,
    captures: seq<u16>,
    modes: seq<CaptureMode>,
    self: Option<u16>,
    schema: Option<TypeSchema>)

  datatype Region = Region(start: u32, end: u32, prototype: Option<u32>)
  datatype Binding = Binding(slot: u16, prototype: u32)
  datatype Export = Export(name: Str, slot: u16)

  /** A guest struct declaration. */
  datatype Decl = Decl(name: Str, params: seq<Str>, body: TypeSchema)

  datatype Callables = Callables(
    functions: seq<ScriptFunction>,
    prototypes: seq<Prototype>,
    regions: seq<Region>,
    bindings: seq<Binding>,
    exports: seq<Export>)

  /** `hostSchemas` is empty or aligned with `imports`; hash maps are association lists. */
  datatype Program = Program(
    constants: seq<Constants.Value>,
    code: seq<u8>,
    localCount: nat,
    imports: seq<HostImport>,
    hostSchemas: seq<Option<ImportSchema>>,
    typeMap: Option<TypeMap>,
    debug: Option<DebugInfo>,
    callables: Callables,
    decls: seq<Decl>)
}
