/** The request parameters a generated method sends outside its path
    (goapi/rest.go: formParams, queryParams, queryString, bodyForm): which
    leaf fields become query or form parameters, and the Go statements
    that copy each of them into the parameter map. */
module Params {

  import opened Wrappers
  import opened Strings
  import opened Descriptors
  import opened GoQuote
  import opened Naming
  import opened GenHelpers
  import opened GoSort
  import opened Binding
  import opened FieldLookup
  import opened Leafs

  // ---------------------------------------------------------------------
  // formParams: the statements for one parameter map.

  /** A field that is sent unconditionally when it is required. */
  predicate SingularPrimitive(f: Field) {
    f.ftype != TypeMessage && f.ftype != TypeBytes && f.fieldLabel != LabelRepeated
  }

  /** The map entry `keyName["key"]`, the key as a Go string literal. */
  function Slot(keyName: string, key: string): string {
    keyName + "[" + Quote(key) + "]"
  }

  /** The statements for a well-known type: its JSON encoding, with the
      error returned. */
  function WellKnownAdd(keyName: string, key: string, jsonName: string, acc: string): string {
    jsonName + ", err := json.Marshal(in" + acc + ")\n" + "if err != nil {\n" + "  return nil, err\n" + "}\n"
    + Slot(keyName, key) + " = string(" + jsonName + ")"
  }

  /** The value formatted with `%v`. */
  function PlainAdd(keyName: string, key: string, acc: string): string {
    Slot(keyName, key) + " = fmt.Sprintf(\"%v\", in" + acc + ")"
  }

  /** Each item of a repeated field formatted with `%v` under the same key. */
  function ItemsAdd(keyName: string, key: string): string {
    "for _, item := range items {\n" + "  " + Slot(keyName, key) + " = fmt.Sprintf(\"%v\", item)\n" + "}"
  }

  /** The assignment of a leaf before the repeated case replaces it. */
  function ParamAdd(keyName: string, path: string, f: Field): string {
    if f.typeName in WellKnownTypes then WellKnownAdd(keyName, path, f.jsonName, FieldGetter(path))
    else PlainAdd(keyName, path, FieldGetter(path))
  }

  /** The path without its last segment. */
  function ParentPath(path: string): string {
    var toks := Split(path, ".");
    Join(toks[..|toks| - 1], ".")
  }

  /** The condition guarding a leaf that is not sent unconditionally: a
      length test for a repeated field, a presence test of the parent and
      of the field for a proto3 optional one, and a test against the zero
      value of its type otherwise. */
  function Condition(path: string, f: Field): string {
    var acc := FieldGetter(path);
    if f.fieldLabel == LabelRepeated then "items := in" + acc + "; len(items) > 0"
    else if f.proto3Optional then "in" + FieldGetter(ParentPath(path)) + " != nil && in" + DirectAccess(path) + " != nil"
    else if f.ftype == TypeMessage || f.ftype == TypeBytes then "in" + acc + " != nil"
    else if f.ftype == TypeString then "in" + acc + " != \"\""
    else if f.ftype == TypeBool then "in" + acc
    else "in" + acc + " != 0"
  }

  /** The `if` statement opening a guarded leaf's block. */
  function GuardOf(path: string, f: Field): string {
    "if " + Condition(path, f) + " {"
  }

  /** The statements for one leaf: the bare assignment for a required
      singular primitive; otherwise the guard, the indented assignment (of
      each item, for a repeated field) and a closing brace. */
  function Fragments(keyName: string, path: string, f: Field): seq<string> {
    var add := ParamAdd(keyName, path, f);
    if Required(f) && SingularPrimitive(f) then [add]
    else [GuardOf(path, f), "\t" + (if f.fieldLabel == LabelRepeated then ItemsAdd(keyName, path) else add), "}"]
  }

  /** The statements for the given keys, in order. */
  function FragmentsOf(keyName: string, qp: map<string, FieldRef>, keys: seq<string>): seq<string>
    requires forall k :: k in keys ==> k in qp
  {
    if keys == [] then []
    else FragmentsOf(keyName, qp, keys[..|keys| - 1]) + Fragments(keyName, Last(keys), qp[Last(keys)].field)
  }

  lemma FragmentsOfSnoc(keyName: string, qp: map<string, FieldRef>, keys: seq<string>, x: string)
    requires forall k :: k in keys ==> k in qp
    requires x in qp
    ensures FragmentsOf(keyName, qp, keys + [x]) == FragmentsOf(keyName, qp, keys) + Fragments(keyName, x, qp[x].field)
  {
    assert (keys + [x])[..|keys|] == keys;
  }

  /** formParams: the statements of every parameter, the parameters taken
      in increasing order of their paths. */
  ghost function FormParamsOf(keyName: string, qp: map<string, FieldRef>): seq<string> {
    FragmentsOf(keyName, qp, SortedKeys(qp.Keys))
  }

  /** The guard formParams writes before a leaf's assignment. */
  method Guard(path: string, field: Field, accessor: string) returns (guard: string)
    requires accessor == FieldGetter(path)
    ensures guard == GuardOf(path, field)
  {
    var cond: string;
    if field.fieldLabel == LabelRepeated {
      cond := "items := in" + accessor + "; len(items) > 0";
    } else if field.proto3Optional {
      var toks := Split(path, ".");
      toks := toks[..|toks| - 1];
      var parentField := BuildAccessor(Join(toks, "."), false);
      var directLeafField := BuildAccessor(path, true);
      cond := "in" + parentField + " != nil && in" + directLeafField + " != nil";
    } else if field.ftype == TypeMessage || field.ftype == TypeBytes {
      cond := "in" + accessor + " != nil";
    } else if field.ftype == TypeString {
      cond := "in" + accessor + " != \"\"";
    } else if field.ftype == TypeBool {
      cond := "in" + accessor;
    } else {
      cond := "in" + accessor + " != 0";
    }
    guard := "if " + cond + " {";
  }

  /** The body of formParams' loop: the statements for one key. */
  method ParamBlock(keyName: string, path: string, field: Field) returns (lines: seq<string>)
    ensures lines == Fragments(keyName, path, field)
  {
    var required := IsRequired(field);
    var accessor := BuildAccessor(path, false);
    var singularPrimitive := field.ftype != TypeMessage && field.ftype != TypeBytes
      && field.fieldLabel != LabelRepeated;
    var key := path;
    var slot := keyName + "[" + Quote(key) + "]";
    var paramAdd: string;
    var wellKnown := Contains(WellKnownTypes, field.typeName);
    if wellKnown {
      paramAdd := field.jsonName + ", err := json.Marshal(in" + accessor + ")\n" + "if err != nil {\n"
        + "  return nil, err\n" + "}\n" + slot + " = string(" + field.jsonName + ")";
    } else {
      paramAdd := slot + " = fmt.Sprintf(\"%v\", in" + accessor + ")";
    }
    if required && singularPrimitive {
      return [paramAdd];
    } else {
      var guard := Guard(path, field, accessor);
      if field.fieldLabel == LabelRepeated {
        paramAdd := "for _, item := range items {\n" + "  " + slot + " = fmt.Sprintf(\"%v\", item)\n" + "}";
      }
      return [guard, "\t" + paramAdd, "}"];
    }
  }

  /** The keys of a map, gathered in the map's (unspecified) order. */
  method KeysOf(m: map<string, FieldRef>) returns (fields: seq<string>)
    ensures forall x :: x in fields <==> x in m
    ensures forall i, j :: 0 <= i < j < |fields| ==> fields[i] != fields[j]
  {
    fields := [];
    var rest := m.Keys;
    while rest != {}
      invariant rest <= m.Keys
      invariant forall x :: x in fields <==> x in m && x !in rest
      invariant forall i, j :: 0 <= i < j < |fields| ==> fields[i] != fields[j]
      decreases |rest|
    {
      var p :| p in rest;
      fields := fields + [p];
      rest := rest - {p};
    }
  }

  /** formParams' loop over the sorted keys. */
  method Blocks(keyName: string, queryParams: map<string, FieldRef>, fields: seq<string>) returns (params: seq<string>)
    requires forall k :: k in fields ==> k in queryParams
    ensures params == FragmentsOf(keyName, queryParams, fields)
  {
    params := [];
    var i := 0;
    while i < |fields|
      invariant 0 <= i <= |fields|
      invariant params == FragmentsOf(keyName, queryParams, fields[..i])
    {
      var path := fields[i];
      var block := ParamBlock(keyName, path, queryParams[path].field);
      FragmentsOfSnoc(keyName, queryParams, fields[..i], path);
      assert fields[..i + 1] == fields[..i] + [path];
      params := params + block;
      i := i + 1;
    }
    assert fields[..i] == fields;
  }

  /** formParams: the keys gathered and sorted, then one block per key. */
  method FormParams(keyName: string, queryParams: map<string, FieldRef>) returns (params: seq<string>)
    ensures params == FormParamsOf(keyName, queryParams)
  {
    var fields := KeysOf(queryParams);
    SortIsSortedKeys(fields, queryParams.Keys);
    fields := Sort(fields);
    params := Blocks(keyName, queryParams, fields);
  }

  // ---------------------------------------------------------------------
  // queryParams and bodyForm: which leaves are parameters.

  /** The leaves kept as parameters: those whose key is not skipped and
      whose own name names no field of the message `reqName`; a lookup
      that panics makes the whole filter panic. */
  function LeafFilter(sc: Schema, reqName: string, leafs: map<string, FieldRef>, skip: set<string>)
    : Result<map<string, FieldRef>>
  {
    if exists path :: path in leafs && path !in skip && Lookup(sc, reqName, leafs[path].field.name).Fail?
    then Fail(Panic)
    else Ok(map path | path in leafs && path !in skip && Lookup(sc, reqName, leafs[path].field.name) == Ok(None)
                     :: leafs[path])
  }

  /** The loop over the leaf map shared by queryParams and bodyForm. The
      map is visited in no particular order; the only failure carries no
      detail, so the order does not show in the result. */
  method FilterLeafs(sc: Schema, reqName: string, pathToLeaf: map<string, FieldRef>, skip: set<string>)
    returns (r: Result<map<string, FieldRef>>)
    ensures r == LeafFilter(sc, reqName, pathToLeaf, skip)
  {
    var queryParams: map<string, FieldRef> := map[];
    var rest := pathToLeaf.Keys;
    while rest != {}
      invariant rest <= pathToLeaf.Keys
      invariant forall path :: path in queryParams <==>
        (path in pathToLeaf && path !in rest && path !in skip && Lookup(sc, reqName, pathToLeaf[path].field.name) == Ok(None))
      invariant forall path :: path in queryParams ==> path in pathToLeaf && queryParams[path] == pathToLeaf[path]
      invariant forall path :: path in pathToLeaf && path !in rest && path !in skip ==>
        Lookup(sc, reqName, pathToLeaf[path].field.name).Ok?
      decreases |rest|
    {
      var path :| path in rest;
      var leaf := pathToLeaf[path];
      if path !in skip {
        var found := LookupField(sc, reqName, leaf.field.name);
        if found.Fail? {
          LookupFailure(sc, reqName, leaf.field.name);
          assert path in pathToLeaf && path !in skip && Lookup(sc, reqName, pathToLeaf[path].field.name).Fail?;
          return Fail(Panic);
        }
        if found.value.None? {
          queryParams := queryParams[path := leaf];
        }
      }
      rest := rest - {path};
    }
    ghost var expected := map path | path in pathToLeaf && path !in skip
      && Lookup(sc, reqName, pathToLeaf[path].field.name) == Ok(None) :: pathToLeaf[path];
    assert forall p :: p in queryParams <==> p in expected;
    assert queryParams == expected;
    return Ok(queryParams);
  }

  /** The fields getLeafs excludes: the body field, when there is one. */
  function Excluded(bodyField: Option<FieldRef>): seq<FieldRef> {
    if bodyField.None? then [] else [bodyField.value]
  }

  /** queryParams: nothing without a binding or when the whole request is
      the body; otherwise the leaves of the request, outside the body
      field, whose keys are neither path parameters nor the body
      selector. */
  function QueryParamsOf(sc: Schema, m: Method): Result<map<string, FieldRef>> {
    match GetHTTPInfo(m)
    case None => Ok(map[])
    case Some(info) =>
      if info.body == "*" then Ok(map[])
      else
        var pp :- PathParamsOf(sc, m);
        if m.inputType !in sc then Fail(Panic)
        else
          var bodyField :- Lookup(sc, m.inputType, info.body);
          var leafs :- LeafMap(sc, m.inputType, Excluded(bodyField));
          LeafFilter(sc, sc[m.inputType].name, leafs, pp.Keys + {info.body})
  }

  method QueryParams(sc: Schema, m: Method) returns (r: Result<map<string, FieldRef>>)
    ensures r == QueryParamsOf(sc, m)
  {
    var info := GetHTTPInfo(m);
    if info.None? {
      return Ok(map[]);
    }
    if info.value.body == "*" {
      return Ok(map[]);
    }
    var pathParams :- PathParams(sc, m);
    ghost var pp := pathParams;
    pathParams := pathParams[info.value.body := FieldRef("", 0, EmptyField)];
    assert pathParams.Keys == pp.Keys + {info.value.body};
    if m.inputType !in sc {
      return Fail(Panic);
    }
    var request := sc[m.inputType];
    var bodyField :- LookupField(sc, m.inputType, info.value.body);
    var pathToLeaf :- GetLeafs(sc, m.inputType, Excluded(bodyField));
    r := FilterLeafs(sc, request.name, pathToLeaf, pathParams.Keys);
  }

  /** queryString: the statements for the query parameters, into `params`. */
  ghost function QueryStringOf(sc: Schema, m: Method): Result<seq<string>> {
    var qp :- QueryParamsOf(sc, m);
    Ok(FormParamsOf("params", qp))
  }

  method QueryString(sc: Schema, m: Method) returns (r: Result<seq<string>>)
    ensures r == QueryStringOf(sc, m)
  {
    var qp :- QueryParams(sc, m);
    var params := FormParams("params", qp);
    return Ok(params);
  }

  /** The message whose leaves bodyForm sends: the request for the body
      selector `*`, and otherwise the type of the body field (a missing
      body field has the empty type name). */
  function BodyMessage(sc: Schema, m: Method, info: HttpInfo): Result<string>
    requires m.inputType in sc
  {
    if info.body == "*" then Ok(m.inputType)
    else
      var bodyField :- Lookup(sc, m.inputType, info.body);
      var typeName := if bodyField.None? then "" else bodyField.value.field.typeName;
      if typeName in sc then Ok(typeName) else Fail(Panic)
  }

  /** bodyForm: the statements, into `bodyForms`, for the leaves of the
      body message whose own name names no field of it. */
  ghost function BodyFormOf(sc: Schema, m: Method, info: HttpInfo): Result<seq<string>> {
    if m.inputType !in sc then Fail(Panic)
    else
      var key :- BodyMessage(sc, m, info);
      var leafs :- LeafMap(sc, key, []);
      var qp :- LeafFilter(sc, sc[key].name, leafs, {});
      Ok(FormParamsOf("bodyForms", qp))
  }

  method BodyForm(sc: Schema, m: Method, info: HttpInfo) returns (r: Result<seq<string>>)
    ensures r == BodyFormOf(sc, m, info)
  {
    if m.inputType !in sc {
      return Fail(Panic);
    }
    var request := m.inputType;
    if info.body != "*" {
      var bodyField :- LookupField(sc, m.inputType, info.body);
      var typeName := if bodyField.None? then "" else bodyField.value.field.typeName;
      if typeName !in sc {
        return Fail(Panic);
      }
      request := typeName;
    }
    var pathToLeaf :- GetLeafs(sc, request, []);
    var queryParams :- FilterLeafs(sc, sc[request].name, pathToLeaf, {});
    var forms := FormParams("bodyForms", queryParams);
    return Ok(forms);
  }

  // ---------------------------------------------------------------------
  // What the statements do.

  /** A leaf takes one bare statement exactly when it is a required
      singular primitive; otherwise its statements are an `if` guard, the
      indented assignment and the closing brace. */
  lemma FragmentsShape(keyName: string, path: string, f: Field)
    ensures |Fragments(keyName, path, f)| == 1 <==> Required(f) && SingularPrimitive(f)
    ensures |Fragments(keyName, path, f)| != 1 ==>
      var fs := Fragments(keyName, path, f);
      |fs| == 3 && fs[0][..3] == "if " && fs[0][|fs[0]| - 1] == '{' && fs[1][0] == '\t' && fs[2] == "}"
  {
    if !(Required(f) && SingularPrimitive(f)) {
      var g := GuardOf(path, f);
      GuardShape(path, f);
    }
  }

  lemma GuardShape(path: string, f: Field)
    ensures |GuardOf(path, f)| >= 5 && GuardOf(path, f)[..3] == "if " && GuardOf(path, f)[|GuardOf(path, f)| - 1] == '{'
  {
  }

  /** A repeated leaf's statements depend on its path alone: its type, its
      JSON name, its behaviours and its proto3 optionality are ignored (the
      well-known-type encoding prepared for it is discarded). */
  lemma RepeatedDependsOnPathOnly(keyName: string, path: string, f: Field, g: Field)
    requires f.fieldLabel == LabelRepeated && g.fieldLabel == LabelRepeated
    ensures Fragments(keyName, path, f) == Fragments(keyName, path, g)
  {
  }

  /** A non-empty dotted name is at least as long as its first segment. */
  lemma {:induction false} JoinLonger(names: seq<string>)
    requires |names| >= 1
    ensures |Join(names, ".")| >= |names[0]|
    decreases |names|
  {
    if |names| > 1 {
      JoinLonger(names[1..]);
    }
  }

  /** The parent path of a path is the join of its segments but the last. */
  lemma ParentPathOf(path: string, names: seq<string>)
    requires Split(path, ".") == names
    ensures ParentPath(path) == Join(names[..|names| - 1], ".")
  {
  }

  /** The getters of a path of non-empty names without dots are those of
      its segments. */
  lemma GetterOfNames(names: seq<string>)
    requires forall n :: n in names ==> '.' !in n && n != ""
    ensures FieldGetter(Join(names, ".")) == Getters(names)
  {
    if names == [] {
      AccessorsOfEmpty();
    } else {
      assert names[0] in names;
      JoinLonger(names);
      AccessorsOfPath(names);
    }
  }

  /** The proto3 optional guard tests the parent, then the field read
      raw: the raw access is the parent's accessor followed by the last
      segment. */
  lemma ParentThenDirect(names: seq<string>)
    requires |names| >= 1 && forall n :: n in names ==> '.' !in n && n != ""
    ensures ParentPath(Join(names, ".")) == Join(names[..|names| - 1], ".")
    ensures DirectAccess(Join(names, ".")) ==
      FieldGetter(ParentPath(Join(names, "."))) + "." + Camel(Last(names))
  {
    SplitPath(names);
    ParentPathOf(Join(names, "."), names);
    assert names[0] in names;
    JoinLonger(names);
    AccessorsOfPath(names);
    var front := names[..|names| - 1];
    assert forall n :: n in front ==> n in names;
    GetterOfNames(front);
  }

  /** For a field of the request itself the parent is the request: the
      guard reads `if in != nil && in.<Camel> != nil {`. */
  lemma ProtoOptionalAtTop(name: string)
    requires name != "" && '.' !in name
    ensures FieldGetter(ParentPath(name)) == ""
    ensures DirectAccess(name) == "." + Camel(name)
  {
    ParentThenDirect([name]);
    AccessorsOfEmpty();
  }

  /** The key of every assignment is a Go string literal that reads back
      as the leaf's path. */
  lemma SlotReadsBack(keyName: string, key: string)
    ensures exists q :: Slot(keyName, key) == keyName + "[" + q + "]" && Unquote(q) == Some(key)
  {
    UnquoteQuote(key);
    assert Slot(keyName, key) == keyName + "[" + Quote(key) + "]";
  }

  /** The statements do not depend on the order in which the map is
      visited: listing the keys in increasing order in any way gives them. */
  lemma FormParamsOfAnyListing(keyName: string, qp: map<string, FieldRef>, keys: seq<string>)
    requires StrictlySorted(keys) && forall k :: k in keys <==> k in qp
    ensures FormParamsOf(keyName, qp) == FragmentsOf(keyName, qp, keys)
  {
    StrictlySortedUnique(keys, SortedKeys(qp.Keys));
  }

  /** Two parameters: the one with the smaller path comes first, whichever
      way the map was built. */
  lemma FormParamsTwo(keyName: string, a: string, ra: FieldRef, b: string, rb: FieldRef)
    requires Less(a, b)
    ensures FormParamsOf(keyName, map[a := ra, b := rb]) ==
      Fragments(keyName, a, ra.field) + Fragments(keyName, b, rb.field)
    ensures map[a := ra, b := rb] == map[b := rb, a := ra]
  {
    LessIrreflexive(a);
    var qp := map[a := ra, b := rb];
    var keys := [a, b];
    assert forall k :: k in keys <==> k in qp;
    FormParamsOfAnyListing(keyName, qp, keys);
    FragmentsOfTwo(keyName, qp, a, b);
  }

  lemma FragmentsOfTwo(keyName: string, qp: map<string, FieldRef>, a: string, b: string)
    requires a in qp && b in qp
    ensures FragmentsOf(keyName, qp, [a, b]) == Fragments(keyName, a, qp[a].field) + Fragments(keyName, b, qp[b].field)
  {
    assert [] + [a] == [a];
    FragmentsOfSnoc(keyName, qp, [], a);
    assert FragmentsOf(keyName, qp, [a]) == Fragments(keyName, a, qp[a].field);
    assert [a] + [b] == [a, b];
    FragmentsOfSnoc(keyName, qp, [a], b);
  }

  lemma FormParamsEmpty(keyName: string)
    ensures FormParamsOf(keyName, map[]) == []
  {
    FormParamsOfAnyListing(keyName, map[], []);
  }

  // ---------------------------------------------------------------------
  // Which leaves are parameters.

  /** The filter keeps exactly the leaves that are not skipped and whose
      name names no field of the message, with their fields; it fails
      only by a panic; and when `reqName` is no message of the schema it
      keeps every leaf that is not skipped. */
  lemma LeafFilterChar(sc: Schema, reqName: string, leafs: map<string, FieldRef>, skip: set<string>)
    ensures LeafFilter(sc, reqName, leafs, skip).Ok? ==>
      var q := LeafFilter(sc, reqName, leafs, skip).value;
      forall k :: k in q <==> k in leafs && k !in skip && Lookup(sc, reqName, leafs[k].field.name) == Ok(None)
    ensures LeafFilter(sc, reqName, leafs, skip).Ok? ==>
      var q := LeafFilter(sc, reqName, leafs, skip).value;
      forall k :: k in q ==> q[k] == leafs[k]
    ensures LeafFilter(sc, reqName, leafs, skip).Fail? ==> LeafFilter(sc, reqName, leafs, skip) == Fail(Panic)
    ensures reqName !in sc ==>
      LeafFilter(sc, reqName, leafs, skip) == Ok(map k | k in leafs && k !in skip :: leafs[k])
  {
    if reqName !in sc {
      var q := LeafFilter(sc, reqName, leafs, skip).value;
      var all := map k | k in leafs && k !in skip :: leafs[k];
      assert forall k :: k in q <==> k in all;
      assert q == all;
    }
  }

  /** The keys that are not query parameters: the path parameters and the
      body selector. */
  ghost predicate QueryResult(sc: Schema, m: Method, qp: map<string, FieldRef>) {
    GetHTTPInfo(m).Some? && GetHTTPInfo(m).value.body != "*"
    && PathParamsOf(sc, m).Ok? && m.inputType in sc
    && var body := GetHTTPInfo(m).value.body;
       var skip := PathParamsOf(sc, m).value.Keys + {body};
       Lookup(sc, m.inputType, body).Ok?
       && var ex := Excluded(Lookup(sc, m.inputType, body).value);
          LeafMap(sc, m.inputType, ex).Ok?
          && var leafs := LeafMap(sc, m.inputType, ex).value;
             (forall k :: k in qp <==>
                k in leafs && k !in skip && Lookup(sc, sc[m.inputType].name, leafs[k].field.name) == Ok(None))
             && (forall k :: k in qp ==> qp[k] == leafs[k])
             && (forall k :: k in qp ==> FromPath(sc, ex, [], m.inputType, |sc[m.inputType].fields|, k, qp[k]))
  }

  /** queryParams is empty without a binding and when the whole request is
      the body; otherwise its entries are the leaves of the request
      outside the body field whose keys are neither path parameters nor
      the body selector (and whose own name names no field of the
      request's short name); it fails only by a panic. */
  lemma QueryParamsChar(sc: Schema, m: Method)
    ensures GetHTTPInfo(m).None? || GetHTTPInfo(m).value.body == "*" ==> QueryParamsOf(sc, m) == Ok(map[])
    ensures QueryParamsOf(sc, m).Ok? && GetHTTPInfo(m).Some? && GetHTTPInfo(m).value.body != "*" ==>
      QueryResult(sc, m, QueryParamsOf(sc, m).value)
    ensures QueryParamsOf(sc, m).Fail? ==> QueryParamsOf(sc, m) == Fail(Panic)
  {
    var info := GetHTTPInfo(m);
    if info.Some? && info.value.body != "*" {
      PathParamsChar(sc, m);
      if PathParamsOf(sc, m).Ok? && m.inputType in sc {
        var body := info.value.body;
        LookupFailure(sc, m.inputType, body);
        if Lookup(sc, m.inputType, body).Ok? {
          var ex := Excluded(Lookup(sc, m.inputType, body).value);
          LeafMapOutcome(sc, m.inputType, ex);
          if LeafMap(sc, m.inputType, ex).Ok? {
            var leafs := LeafMap(sc, m.inputType, ex).value;
            var skip := PathParamsOf(sc, m).value.Keys + {body};
            LeafFilterChar(sc, sc[m.inputType].name, leafs, skip);
            LeafMapChar(sc, m.inputType, ex);
          }
        }
      }
    }
  }

  /** No query parameter is a path parameter or the body selector. */
  lemma QueryParamsSkipPathAndBody(sc: Schema, m: Method, k: string)
    requires QueryParamsOf(sc, m).Ok? && k in QueryParamsOf(sc, m).value
    ensures GetHTTPInfo(m).Some? && k != GetHTTPInfo(m).value.body
    ensures PathParamsOf(sc, m).Ok? && k !in PathParamsOf(sc, m).value
    ensures !Expands(QueryParamsOf(sc, m).value[k])
  {
    QueryParamsChar(sc, m);
    var qp := QueryParamsOf(sc, m).value;
    var body := GetHTTPInfo(m).value.body;
    var ex := Excluded(Lookup(sc, m.inputType, body).value);
    LeafMapValuesAreLeaves(sc, m.inputType, ex, k);
  }

  /** The request's short name is the usual case of a name that is no key
      of the schema (whose keys are fully qualified); then every leaf of
      the request outside the body field whose key is neither a path
      parameter nor the body selector is a query parameter. */
  lemma QueryParamsAllLeaves(sc: Schema, m: Method, k: string)
    requires QueryParamsOf(sc, m).Ok? && GetHTTPInfo(m).Some? && GetHTTPInfo(m).value.body != "*"
    requires m.inputType in sc && sc[m.inputType].name !in sc
    requires PathParamsOf(sc, m).Ok? && Lookup(sc, m.inputType, GetHTTPInfo(m).value.body).Ok?
    requires LeafMap(sc, m.inputType, Excluded(Lookup(sc, m.inputType, GetHTTPInfo(m).value.body).value)).Ok?
    requires k in LeafMap(sc, m.inputType, Excluded(Lookup(sc, m.inputType, GetHTTPInfo(m).value.body).value)).value
    requires k != GetHTTPInfo(m).value.body && k !in PathParamsOf(sc, m).value
    ensures k in QueryParamsOf(sc, m).value
  {
    QueryParamsChar(sc, m);
  }

  /** queryString is empty exactly where queryParams is. */
  lemma QueryStringEmpty(sc: Schema, m: Method)
    ensures GetHTTPInfo(m).None? || GetHTTPInfo(m).value.body == "*" ==> QueryStringOf(sc, m) == Ok([])
    ensures QueryStringOf(sc, m).Fail? ==> QueryStringOf(sc, m) == Fail(Panic)
  {
    QueryParamsChar(sc, m);
    FormParamsEmpty("params");
  }

  /** bodyForm sends the leaves of the body message: the request for `*`,
      the body field's type otherwise; a body selector that names no
      field, or a field of no message type of the schema, panics. */
  lemma BodyFormMessage(sc: Schema, m: Method, info: HttpInfo)
    requires m.inputType in sc
    ensures info.body == "*" ==> BodyMessage(sc, m, info) == Ok(m.inputType)
    ensures info.body != "*" && Lookup(sc, m.inputType, info.body) == Ok(None) && "" !in sc ==>
      BodyMessage(sc, m, info) == Fail(Panic)
    ensures info.body != "*" && Lookup(sc, m.inputType, info.body).Ok? && Lookup(sc, m.inputType, info.body).value.Some? ==>
      var f := Lookup(sc, m.inputType, info.body).value.value.field;
      BodyMessage(sc, m, info) == (if f.typeName in sc then Ok(f.typeName) else Fail(Panic))
    ensures BodyMessage(sc, m, info).Fail? ==> BodyMessage(sc, m, info) == Fail(Panic)
  {
    LookupFailure(sc, m.inputType, info.body);
  }

  /** With the whole request as body, every leaf of the request is a form
      parameter (the request's short name is no key of the schema). */
  lemma BodyFormWholeRequest(sc: Schema, m: Method, info: HttpInfo)
    requires m.inputType in sc && info.body == "*" && sc[m.inputType].name !in sc
    requires LeafMap(sc, m.inputType, []).Ok?
    ensures BodyFormOf(sc, m, info) == Ok(FormParamsOf("bodyForms", LeafMap(sc, m.inputType, []).value))
  {
    var leafs := LeafMap(sc, m.inputType, []).value;
    LeafFilterChar(sc, sc[m.inputType].name, leafs, {});
    var q := LeafFilter(sc, sc[m.inputType].name, leafs, {}).value;
    assert forall k :: k in q <==> k in leafs;
    assert q == leafs;
    assert BodyMessage(sc, m, info) == Ok(m.inputType);
  }

  /** bodyForm fails only by a panic. */
  lemma BodyFormFailure(sc: Schema, m: Method, info: HttpInfo)
    ensures BodyFormOf(sc, m, info).Fail? ==> BodyFormOf(sc, m, info) == Fail(Panic)
  {
    if m.inputType in sc {
      BodyFormMessage(sc, m, info);
      var key := BodyMessage(sc, m, info);
      if key.Ok? {
        LeafMapOutcome(sc, key.value, []);
        var leafs := LeafMap(sc, key.value, []);
        if leafs.Ok? {
          LeafFilterChar(sc, sc[key.value].name, leafs.value, {});
        }
      }
    }
  }
}
