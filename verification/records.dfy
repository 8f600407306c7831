/** The records the decoder produces and the layout pass annotates. */
module Records {
  import opened Wrappers
  import opened Strings

  /** A decoded MethodBind. */
  datatype MethodRecord = MethodRecord(
    name: Text,
    methodId: int,
    argCount: int,
    defaultArgCount: int,
    isStatic: bool,
    isConst: bool,
    hasReturn: bool,
    returnType: int,
    argTypes: seq<int>)

  /** A decoded property; `offset` is filled in by the layout pass. */
  datatype PropertyRecord = PropertyRecord(name: Text, variantType: int, offset: Option<int>)

  /** A decoded class; `size` is filled in by the layout pass. */
  datatype ClassRecord = ClassRecord(
    name: Text,
    parent: Option<Text>,
    methods: seq<MethodRecord>,
    properties: seq<PropertyRecord>,
    size: Option<int>)
}
