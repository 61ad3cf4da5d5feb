/** Dotted field lookup (goapi/rest.go, lookupField) and the path
    parameters of a binding (pathParams). */
module FieldLookup {

  import opened Wrappers
  import opened Strings
  import opened Descriptors
  import opened Binding
  import opened UrlTemplate

  /** The first position at or after `from` of a field with the given name. */
  function FindFrom(fields: seq<Field>, name: string, from: nat): (r: Option<nat>)
    requires from <= |fields|
    ensures r.Some? ==> from <= r.value < |fields| && fields[r.value].name == name
    ensures r.Some? ==> forall j :: from <= j < r.value ==> fields[j].name != name
    ensures r.None? ==> forall j :: from <= j < |fields| ==> fields[j].name != name
    decreases |fields| - from
  {
    if from == |fields| then None
    else if fields[from].name == name then Some(from)
    else FindFrom(fields, name, from + 1)
  }

  /** The first field with the given name. */
  function FindByName(fields: seq<Field>, name: string): Option<nat> {
    FindFrom(fields, name, 0)
  }

  /** The lookup of the remaining segments from the message `key`, with
      `desc` the field found so far: a segment that names a field of the
      current message makes that field the result and, when it is a
      message, moves to its type (which must exist); a segment that names
      nothing changes nothing. */
  function LookupSegs(sc: Schema, key: string, segs: seq<string>, desc: Option<FieldRef>)
    : Result<Option<FieldRef>>
    requires key in sc
    decreases |segs|
  {
    if segs == [] then Ok(desc)
    else match FindByName(sc[key].fields, segs[0])
      case None => LookupSegs(sc, key, segs[1..], desc)
      case Some(j) =>
        var f := sc[key].fields[j];
        var d := Some(FieldRef(key, j, f));
        if f.ftype != TypeMessage then LookupSegs(sc, key, segs[1..], d)
        else if f.typeName in sc then LookupSegs(sc, f.typeName, segs[1..], d)
        else Fail(Panic)
  }

  /** lookupField: nothing when the message is missing, otherwise the
      lookup of the path's dot-separated segments from it. */
  function Lookup(sc: Schema, msgName: string, path: string): Result<Option<FieldRef>> {
    if msgName !in sc then Ok(None) else LookupSegs(sc, msgName, Split(path, "."), None)
  }

  /** lookupField's two nested loops: over the segments, and over the
      current message's fields until the segment's name is found. */
  method LookupField(sc: Schema, msgName: string, field: string) returns (r: Result<Option<FieldRef>>)
    ensures r == Lookup(sc, msgName, field)
  {
    if msgName !in sc {
      return Ok(None);
    }
    var desc: Option<FieldRef> := None;
    var key := msgName;
    var msgFields := sc[key].fields;
    var segs := Split(field, ".");
    var i := 0;
    while i < |segs|
      invariant 0 <= i <= |segs|
      invariant key in sc && msgFields == sc[key].fields
      invariant LookupSegs(sc, key, segs[i..], desc) == Lookup(sc, msgName, field)
    {
      var seg := segs[i];
      assert segs[i..][0] == seg && segs[i..][1..] == segs[i + 1..];
      ghost var key0, desc0 := key, desc;
      var fields := msgFields;
      var j := 0;
      while j < |fields|
        invariant 0 <= j <= |fields|
        invariant key == key0 && desc == desc0 && msgFields == fields
        invariant FindFrom(fields, seg, 0) == FindFrom(fields, seg, j)
      {
        var f := fields[j];
        if f.name == seg {
          desc := Some(FieldRef(key, j, f));
          if f.ftype == TypeMessage {
            if f.typeName !in sc {
              return Fail(Panic);
            }
            key := f.typeName;
            msgFields := sc[key].fields;
          }
          break;
        }
        j := j + 1;
      }
      i := i + 1;
    }
    assert segs[i..] == [];
    return Ok(desc);
  }

  /** A found field is never lost again: once a segment has matched, the
      result is a field or a panic, never nothing. */
  lemma {:induction false} LookupKeepsMatch(sc: Schema, key: string, segs: seq<string>, d: FieldRef)
    requires key in sc
    ensures LookupSegs(sc, key, segs, Some(d)) != Ok(None)
    decreases |segs|
  {
    if segs != [] {
      match FindByName(sc[key].fields, segs[0]) {
        case None => LookupKeepsMatch(sc, key, segs[1..], d);
        case Some(j) =>
          var f := sc[key].fields[j];
          if f.ftype != TypeMessage {
            LookupKeepsMatch(sc, key, segs[1..], FieldRef(key, j, f));
          } else if f.typeName in sc {
            LookupKeepsMatch(sc, f.typeName, segs[1..], FieldRef(key, j, f));
          }
      }
    }
  }

  /** From nothing found, the result is nothing exactly when no segment
      names a field of the message. */
  lemma {:induction false} LookupSegsNone(sc: Schema, key: string, segs: seq<string>)
    requires key in sc
    ensures LookupSegs(sc, key, segs, None) == Ok(None) <==>
      forall k, j :: 0 <= k < |segs| && 0 <= j < |sc[key].fields| ==> sc[key].fields[j].name != segs[k]
    decreases |segs|
  {
    if segs != [] {
      var fields := sc[key].fields;
      LookupSegsNone(sc, key, segs[1..]);
      match FindByName(fields, segs[0]) {
        case None =>
          forall k, j | 0 <= k < |segs| && 0 <= j < |fields| && fields[j].name == segs[k]
            ensures k > 0
          {
          }
          assert forall k :: 1 <= k < |segs| ==> segs[k] == segs[1..][k - 1];
        case Some(j) =>
          var f := fields[j];
          if f.ftype != TypeMessage {
            LookupKeepsMatch(sc, key, segs[1..], FieldRef(key, j, f));
          } else if f.typeName in sc {
            LookupKeepsMatch(sc, f.typeName, segs[1..], FieldRef(key, j, f));
          }
          assert fields[j].name == segs[0];
      }
    }
  }

  /** lookupField returns nil exactly when the message is missing or no
      segment of the path names one of the message's own fields. */
  lemma LookupNone(sc: Schema, msgName: string, path: string)
    ensures Lookup(sc, msgName, path) == Ok(None) <==>
      msgName !in sc ||
      forall seg, f :: seg in Split(path, ".") && f in sc[msgName].fields ==> f.name != seg
  {
    if msgName in sc {
      var segs, fields := Split(path, "."), sc[msgName].fields;
      LookupSegsNone(sc, msgName, segs);
      if forall k, j :: 0 <= k < |segs| && 0 <= j < |fields| ==> fields[j].name != segs[k] {
        forall seg, f | seg in segs && f in fields ensures f.name != seg {
          var k :| 0 <= k < |segs| && segs[k] == seg;
          var j :| 0 <= j < |fields| && fields[j] == f;
        }
      } else {
        var k, j :| 0 <= k < |segs| && 0 <= j < |fields| && fields[j].name == segs[k];
        assert segs[k] in segs && fields[j] in fields;
      }
    }
  }

  /** Every field the lookup returns is a field of the schema, named by one
      of the segments. */
  lemma {:induction false} LookupSegsSound(sc: Schema, key: string, segs: seq<string>, desc: Option<FieldRef>)
    requires key in sc
    requires desc.Some? ==> ValidRef(sc, desc.value)
    ensures match LookupSegs(sc, key, segs, desc)
      case Ok(Some(r)) => ValidRef(sc, r) && (desc == Some(r) || r.field.name in segs)
      case _ => true
    decreases |segs|
  {
    if segs != [] {
      match FindByName(sc[key].fields, segs[0]) {
        case None => LookupSegsSound(sc, key, segs[1..], desc);
        case Some(j) =>
          var f := sc[key].fields[j];
          var d := Some(FieldRef(key, j, f));
          if f.ftype != TypeMessage {
            LookupSegsSound(sc, key, segs[1..], d);
          } else if f.typeName in sc {
            LookupSegsSound(sc, f.typeName, segs[1..], d);
          }
      }
    }
  }

  lemma LookupSound(sc: Schema, msgName: string, path: string)
    ensures Lookup(sc, msgName, path).Ok? && Lookup(sc, msgName, path).value.Some? ==>
      ValidRef(sc, Lookup(sc, msgName, path).value.value) &&
      Lookup(sc, msgName, path).value.value.field.name in Split(path, ".")
  {
    if msgName in sc {
      LookupSegsSound(sc, msgName, Split(path, "."), None);
    }
  }

  /** The only failure is the panic of a missing message type, and a closed
      schema has none. */
  lemma {:induction false} LookupSegsClosed(sc: Schema, key: string, segs: seq<string>, desc: Option<FieldRef>)
    requires key in sc
    ensures LookupSegs(sc, key, segs, desc).Fail? ==> LookupSegs(sc, key, segs, desc) == Fail(Panic)
    ensures Closed(sc) ==> LookupSegs(sc, key, segs, desc).Ok?
    decreases |segs|
  {
    if segs != [] {
      match FindByName(sc[key].fields, segs[0]) {
        case None => LookupSegsClosed(sc, key, segs[1..], desc);
        case Some(j) =>
          var f := sc[key].fields[j];
          var d := Some(FieldRef(key, j, f));
          if f.ftype != TypeMessage {
            LookupSegsClosed(sc, key, segs[1..], d);
          } else if f.typeName in sc {
            LookupSegsClosed(sc, f.typeName, segs[1..], d);
          }
      }
    }
  }

  lemma LookupFailure(sc: Schema, msgName: string, path: string)
    ensures Lookup(sc, msgName, path).Fail? ==> Lookup(sc, msgName, path) == Fail(Panic)
    ensures Closed(sc) ==> Lookup(sc, msgName, path).Ok?
  {
    if msgName in sc {
      LookupSegsClosed(sc, msgName, Split(path, "."), None);
    }
  }

  /** A segment that names nothing is skipped and the field found before it
      stays the result: with a single non-message field `name`,
      `name.nope` and `nope.name` both find it. */
  lemma LookupSkipsUnknownSegment(sc: Schema, key: string, f: Field, nope: string)
    requires key in sc && sc[key].fields == [f] && f.ftype != TypeMessage
    requires '.' !in f.name && '.' !in nope && nope != f.name
    ensures Lookup(sc, key, f.name + "." + nope) == Ok(Some(FieldRef(key, 0, f)))
    ensures Lookup(sc, key, nope + "." + f.name) == Ok(Some(FieldRef(key, 0, f)))
  {
    var r := FieldRef(key, 0, f);
    assert FindByName([f], nope).None?;
    assert FindByName([f], f.name) == Some(0);
    JoinTwo(f.name, nope);
    assert LookupSegs(sc, key, [nope], Some(r)) == Ok(Some(r)) by {
      assert [nope][1..] == [];
    }
    assert LookupSegs(sc, key, [f.name, nope], None) == LookupSegs(sc, key, [nope], Some(r)) by {
      assert [f.name, nope][1..] == [nope];
    }
    JoinTwo(nope, f.name);
    assert LookupSegs(sc, key, [f.name], None) == Ok(Some(r)) by {
      assert [f.name][1..] == [];
    }
    assert LookupSegs(sc, key, [nope, f.name], None) == LookupSegs(sc, key, [f.name], None) by {
      assert [nope, f.name][1..] == [f.name];
    }
  }

  /** Two names without dots, joined by a dot, split back into them. */
  lemma JoinTwo(a: string, b: string)
    requires '.' !in a && '.' !in b
    ensures Split(a + "." + b, ".") == [a, b]
  {
    SplitJoin([a, b], '.');
    assert [a, b][1..] == [b];
    assert Join([a, b], ".") == a + "." + b;
  }

  /** The fold of pathParams' loop over the parameter names. */
  function PathFold(sc: Schema, input: string, names: seq<string>, acc: map<string, FieldRef>)
    : Result<map<string, FieldRef>>
    decreases |names|
  {
    if names == [] then Ok(acc)
    else
      var f :- Lookup(sc, input, names[0]);
      if f.None? then PathFold(sc, input, names[1..], acc)
      else PathFold(sc, input, names[1..], acc[names[0] := f.value])
  }

  /** The parameter names of a binding's URL under the second pattern. */
  function PathNames(info: HttpInfo): seq<string> {
    ParamNames(BraceMatches(info.url, 0))
  }

  /** pathParams as a value: empty without a binding. */
  function PathParamsOf(sc: Schema, m: Method): Result<map<string, FieldRef>> {
    match GetHTTPInfo(m)
    case None => Ok(map[])
    case Some(info) => PathFold(sc, m.inputType, PathNames(info), map[])
  }

  /** pathParams: each placeholder's name before `=`, kept when the lookup
      on the input type finds a field. */
  method PathParams(sc: Schema, m: Method) returns (r: Result<map<string, FieldRef>>)
    ensures r == PathParamsOf(sc, m)
  {
    var info := GetHTTPInfo(m);
    if info.None? {
      return Ok(map[]);
    }
    var pathParams: map<string, FieldRef> := map[];
    var ps := BraceMatches(info.value.url, 0);
    ghost var names := PathNames(info.value);
    var i := 0;
    while i < |ps|
      invariant 0 <= i <= |ps|
      invariant PathFold(sc, m.inputType, names[i..], pathParams) == PathFold(sc, m.inputType, names, map[])
    {
      var param := ParamName(ps[i].group);
      assert names[i..][0] == param && names[i..][1..] == names[i + 1..];
      var field := LookupField(sc, m.inputType, param);
      if field.Fail? {
        return Fail(field.failure);
      }
      if field.value.Some? {
        pathParams := pathParams[param := field.value.value];
      }
      i := i + 1;
    }
    assert names[i..] == [];
    return Ok(pathParams);
  }

  /** The fold succeeds when every lookup does; it then keeps exactly the
      names whose lookup finds a field, each with the field found. */
  lemma {:induction false} PathFoldChar(sc: Schema, input: string, names: seq<string>, acc: map<string, FieldRef>)
    ensures PathFold(sc, input, names, acc).Ok? <==> forall n :: n in names ==> Lookup(sc, input, n).Ok?
    ensures PathFold(sc, input, names, acc).Ok? ==>
      var pp := PathFold(sc, input, names, acc).value;
      (forall k :: k in pp <==> k in acc || (k in names && Lookup(sc, input, k) != Ok(None)))
      && (forall k :: k in names && Lookup(sc, input, k) != Ok(None) ==> Lookup(sc, input, k) == Ok(Some(pp[k])))
      && (forall k :: k in acc && (k !in names || Lookup(sc, input, k) == Ok(None)) ==> pp[k] == acc[k])
    decreases |names|
  {
    if names != [] {
      var n := names[0];
      var look := Lookup(sc, input, n);
      assert forall x :: x in names <==> x == n || x in names[1..];
      if look.Ok? {
        if look.value.None? {
          PathFoldChar(sc, input, names[1..], acc);
        } else {
          PathFoldChar(sc, input, names[1..], acc[n := look.value.value]);
        }
      }
    }
  }

  /** No parameter name holds `=`. */
  lemma PathNamesNoEquals(info: HttpInfo)
    ensures forall k :: k in PathNames(info) ==> '=' !in k
  {
    var ms := BraceMatches(info.url, 0);
    forall k | k in PathNames(info) ensures '=' !in k {
      var i :| 0 <= i < |ms| && PathNames(info)[i] == k;
      assert k == ParamName(ms[i].group);
    }
  }

  /** pathParams keeps exactly the placeholder names that resolve on the
      input type, each with the field found; a binding-less method has
      none; the only failure is a panic. */
  lemma PathParamsChar(sc: Schema, m: Method)
    ensures GetHTTPInfo(m).None? ==> PathParamsOf(sc, m) == Ok(map[])
    ensures GetHTTPInfo(m).Some? && PathParamsOf(sc, m).Ok? ==>
      forall k :: k in PathParamsOf(sc, m).value <==>
        k in PathNames(GetHTTPInfo(m).value) && Lookup(sc, m.inputType, k) != Ok(None)
    ensures GetHTTPInfo(m).Some? && PathParamsOf(sc, m).Ok? ==>
      forall k :: k in PathParamsOf(sc, m).value ==>
        Lookup(sc, m.inputType, k) == Ok(Some(PathParamsOf(sc, m).value[k])) && '=' !in k
    ensures PathParamsOf(sc, m).Fail? ==> PathParamsOf(sc, m) == Fail(Panic)
  {
    if GetHTTPInfo(m).Some? {
      var info := GetHTTPInfo(m).value;
      var names := PathNames(info);
      var res := PathFold(sc, m.inputType, names, map[]);
      assert PathParamsOf(sc, m) == res;
      PathFoldFailure(sc, m.inputType, names, map[]);
      if res.Ok? {
        PathFoldChar(sc, m.inputType, names, map[]);
        PathNamesNoEquals(info);
        var pp := res.value;
        assert forall k :: k in pp <==> k in names && Lookup(sc, m.inputType, k) != Ok(None);
      }
    }
  }

  lemma {:induction false} PathFoldFailure(sc: Schema, input: string, names: seq<string>, acc: map<string, FieldRef>)
    ensures PathFold(sc, input, names, acc).Fail? ==> PathFold(sc, input, names, acc) == Fail(Panic)
    decreases |names|
  {
    if names != [] {
      var look := Lookup(sc, input, names[0]);
      LookupFailure(sc, input, names[0]);
      if look.Ok? {
        if look.value.None? {
          PathFoldFailure(sc, input, names[1..], acc);
        } else {
          PathFoldFailure(sc, input, names[1..], acc[names[0] := look.value.value]);
        }
      }
    }
  }
}
