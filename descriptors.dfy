/** The descriptor data the generator reads (messages, fields, methods,
    services, files, the plugin request), the records it fills for the
    renderer (goapi/data.go), and the collaborators it calls but whose code
    is not part of this model. */
module Descriptors {

  import opened Wrappers

  /** FieldDescriptorProto.Type. */
  datatype FieldType =
    | TypeDouble | TypeFloat | TypeInt64 | TypeUint64 | TypeInt32
    | TypeFixed64 | TypeFixed32 | TypeBool | TypeString | TypeGroup
    | TypeMessage | TypeBytes | TypeUint32 | TypeEnum | TypeSfixed32
    | TypeSfixed64 | TypeSint32 | TypeSint64

  /** FieldDescriptorProto.Label. */
  datatype Label = LabelOptional | LabelRequired | LabelRepeated

  /** google.api.FieldBehavior. */
  datatype FieldBehavior =
    | BehaviorUnspecified | BehaviorOptional | BehaviorRequired | BehaviorOutputOnly
    | BehaviorInputOnly | BehaviorImmutable | BehaviorUnorderedList
    | BehaviorNonEmptyDefault | BehaviorIdentifier

  /** A field descriptor. `behaviors` is None when the field has no options
      message, and otherwise the resolved `google.api.field_behavior` list. */
  datatype Field = Field(
    name: string,
    fieldLabel: Label,
    ftype: FieldType,
    typeName: string,
    jsonName: string,
    proto3Optional: bool,
    behaviors: Option<seq<FieldBehavior>>)

  /** A message descriptor: its short name and its fields in declaration order. */
  datatype Message = Message(name: string, fields: seq<Field>)

  /** The index of every message of the run by fully-qualified,
      dot-prefixed type name (`.pkg.Msg`). */
  type Schema = map<string, Message>

  /** The identity of a field descriptor: the message it belongs to (by its
      schema key), its position there, and its contents. Go compares field
      descriptors by pointer; two refs are equal exactly when they denote the
      same descriptor of the schema. */
  datatype FieldRef = FieldRef(owner: string, index: nat, field: Field)

  predicate ValidRef(sc: Schema, r: FieldRef) {
    r.owner in sc && r.index < |sc[r.owner].fields| && sc[r.owner].fields[r.index] == r.field
  }

  /** Every message-typed field names a message of the schema. */
  predicate Closed(sc: Schema) {
    forall key, j :: key in sc && 0 <= j < |sc[key].fields| && sc[key].fields[j].ftype == TypeMessage
      ==> sc[key].fields[j].typeName in sc
  }

  /** The pattern case of a google.api.HttpRule. */
  datatype Pattern =
    | NoPattern
    | Get(path: string)
    | Put(path: string)
    | Post(path: string)
    | Delete(path: string)
    | Patch(path: string)
    | Custom(kind: string, path: string)

  /** A resolved google.api.http rule. A method whose options carry no http
      extension has the rule `HttpRule(NoPattern, "")`, which is what the
      getters of a nil rule return. */
  datatype HttpRule = HttpRule(pattern: Pattern, body: string)

  /** A method descriptor. `options` is None when the method has no options
      message at all. `comment` is its resolved leading comment. */
  datatype Method = Method(
    name: string,
    inputType: string,
    outputType: string,
    options: Option<HttpRule>,
    clientStreaming: bool,
    serverStreaming: bool,
    comment: string)

  datatype Service = Service(name: string, methods: seq<Method>)

  /** A file descriptor; `goPackage` is "" when the file has no options. */
  datatype File = File(name: string, package: string, goPackage: string, services: seq<Service>)

  /** The plugin's CodeGeneratorRequest. */
  datatype Request = Request(fileToGenerate: seq<string>, parameter: string, protoFiles: seq<File>)

  /** MethodData, ServiceData and FileData: what the renderer receives. */
  datatype MethodData = MethodData(
    servName: string,
    methName: string,
    comment: string,
    reqTyp: string,
    resTyp: string,
    reqCode: string)

  datatype ServiceData = ServiceData(pkgName: string, servName: string, methods: seq<MethodData>)

  datatype FileData = FileData(version: string, source: string, goPackage: string, services: seq<ServiceData>)

  /** One generated file of the CodeGeneratorResponse. */
  datatype OutputFile = OutputFile(name: string, content: string)

  datatype Response = Response(files: seq<OutputFile>)

  /** Collaborators whose code is not part of this model: the templates
      that package query strings, form bodies and multipart bodies, the
      stubs written for streaming methods, the file renderer, the option
      parser and the release string. */
  datatype Externals = Externals(
    queryStringContent: string -> Result<string>,
    bodyFormContent: string -> Result<string>,
    multipartContent: string -> Result<string>,
    noClientStream: string -> string,
    noServerStream: string -> string,
    renderFile: FileData -> Result<string>,
    parseOptions: string -> Result<()>,
    release: string)

  /** The empty field descriptor, `&descriptor.FieldDescriptorProto{}`. */
  const EmptyField := Field("", LabelOptional, TypeDouble, "", "", false, None)
}
