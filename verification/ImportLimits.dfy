/** Aggregate limits on host import schemas, as the in-memory validator states them. */
module ImportLimits {
  import opened Bytes
  import opened Seqs
  import opened Wire
  import opened HostNames
  import opened HostTypes

  const MAX_HOST_FUNCTIONS: nat := 1_024

  function ImportNodes(h: ImportSchema): nat { Sum(ParamNodes, h.params) + NodesOf(h.result) }
  function ImportProps(h: ImportSchema): nat { Sum(ParamProps, h.params) + PropsOf(h.result) }
  function ImportParams(h: ImportSchema): nat { |h.params| }

  /** What does not depend on the budget: the name grammar, the name lengths and the depths. */
  predicate ShapeOk(h: ImportSchema) {
    && FunctionName(h.name)
    && (forall p <- h.params :: |p.name| <= MAX_NAME && DepthOf(p.ty) <= MAX_HOST_DEPTH)
    && DepthOf(h.result) <= MAX_HOST_DEPTH
  }

  /** `HostImportSchema::validate`: one import against a fresh budget. */
  predicate ImportValid(h: ImportSchema) {
    && ShapeOk(h)
    && ImportParams(h) <= MAX_HOST_PARAMETERS && ImportNodes(h) <= MAX_HOST_NODES && ImportProps(h) <= MAX_HOST_PROPERTIES
  }

  /** `validate_host_import_schemas`: all imports against one budget. */
  predicate AggregateValid(hs: seq<ImportSchema>) {
    && |hs| <= MAX_HOST_FUNCTIONS
    && (forall h <- hs :: ShapeOk(h))
    && Sum(ImportParams, hs) <= MAX_HOST_PARAMETERS
    && Sum(ImportNodes, hs) <= MAX_HOST_NODES
    && Sum(ImportProps, hs) <= MAX_HOST_PROPERTIES
  }

  function Present(os: seq<Option<ImportSchema>>): seq<ImportSchema> {
    if os == [] then [] else (if os[0].Some? then [os[0].value] else []) + Present(os[1..])
  }
}
