/** Leaf collection (goapi/rest.go, getLeafs): a depth-first walk from a
    message that records, for every leaf field it reaches, the dot-joined
    names of the fields on the way followed by the leaf's own name. A
    message-typed field that is not a well-known type is walked into, unless
    it is repeated, excluded, or already on the current path; every other
    field is a leaf. */
module Leafs {

  import opened Wrappers
  import opened Strings
  import opened Descriptors
  import opened GenHelpers

  /** The message types with their own JSON encoding, which count as leaves. */
  const WellKnownTypes: seq<string> := [
    ".google.protobuf.FieldMask",
    ".google.protobuf.Timestamp",
    ".google.protobuf.Duration",
    ".google.protobuf.DoubleValue",
    ".google.protobuf.FloatValue",
    ".google.protobuf.Int64Value",
    ".google.protobuf.UInt64Value",
    ".google.protobuf.Int32Value",
    ".google.protobuf.UInt32Value",
    ".google.protobuf.BoolValue",
    ".google.protobuf.StringValue",
    ".google.protobuf.BytesValue",
    ".google.protobuf.Value",
    ".google.protobuf.ListValue"
  ]

  /** A field that recurse hands to handleMsg rather than handleLeaf. */
  predicate Expands(r: FieldRef) {
    r.field.ftype == TypeMessage && r.field.typeName !in WellKnownTypes
  }

  /** A field that handleMsg may walk into (before the cycle check). */
  predicate Descends(ex: seq<FieldRef>, r: FieldRef) {
    Expands(r) && r.field.fieldLabel != LabelRepeated && r !in ex
  }

  predicate Distinct<T(==)>(s: seq<T>) {
    forall i, j :: 0 <= i < j < |s| ==> s[i] != s[j]
  }

  /** The path of fields being walked: distinct fields of the schema that
      were each walked into. */
  predicate StackOk(sc: Schema, ex: seq<FieldRef>, stack: seq<FieldRef>) {
    Distinct(stack) && forall i :: 0 <= i < |stack| ==> ValidRef(sc, stack[i]) && Descends(ex, stack[i])
  }

  /** Every field of the schema. */
  function AllRefs(sc: Schema): set<FieldRef> {
    set key, i | key in sc && 0 <= i < |sc[key].fields| :: FieldRef(key, i, sc[key].fields[i])
  }

  lemma ValidInAll(sc: Schema, r: FieldRef)
    requires ValidRef(sc, r)
    ensures r in AllRefs(sc)
  {
    assert r == FieldRef(r.owner, r.index, sc[r.owner].fields[r.index]);
  }

  /** A sequence of distinct elements of a set is no longer than the set. */
  lemma {:induction false} DistinctBounded(s: seq<FieldRef>, all: set<FieldRef>)
    requires Distinct(s) && forall i :: 0 <= i < |s| ==> s[i] in all
    ensures |s| <= |all|
    decreases |s|
  {
    if s != [] {
      var rest := all - {s[0]};
      forall i | 0 <= i < |s[1..]| ensures s[1..][i] in rest {
        assert s[1..][i] == s[i + 1] != s[0];
      }
      DistinctBounded(s[1..], rest);
    }
  }

  lemma StackBounded(sc: Schema, ex: seq<FieldRef>, stack: seq<FieldRef>)
    requires StackOk(sc, ex, stack)
    ensures |stack| <= |AllRefs(sc)|
  {
    forall i | 0 <= i < |stack| ensures stack[i] in AllRefs(sc) {
      ValidInAll(sc, stack[i]);
    }
    DistinctBounded(stack, AllRefs(sc));
  }

  /** How many more fields the path can still take: no field repeats on a
      path, so this bounds the depth of the walk. */
  function Measure(sc: Schema, ex: seq<FieldRef>, stack: seq<FieldRef>): nat
    requires StackOk(sc, ex, stack)
  {
    StackBounded(sc, ex, stack);
    |AllRefs(sc)| - |stack|
  }

  /** Walking into a new field keeps the path well formed and shortens
      what is left. */
  lemma StackPush(sc: Schema, ex: seq<FieldRef>, stack: seq<FieldRef>, r: FieldRef)
    requires StackOk(sc, ex, stack) && ValidRef(sc, r) && Descends(ex, r) && r !in stack
    ensures StackOk(sc, ex, stack + [r])
    ensures Measure(sc, ex, stack + [r]) < Measure(sc, ex, stack)
  {
    var s := stack + [r];
    forall i, j | 0 <= i < j < |s| ensures s[i] != s[j] {
      if j == |stack| {
        assert s[i] == stack[i];
      }
    }
    StackBounded(sc, ex, s);
  }

  /** The names of the fields on a path. */
  function Names(stack: seq<FieldRef>): (ns: seq<string>)
    ensures |ns| == |stack| && forall i :: 0 <= i < |stack| ==> ns[i] == stack[i].field.name
  {
    if stack == [] then [] else Names(stack[..|stack| - 1]) + [stack[|stack| - 1].field.name]
  }

  /** The key handleLeaf writes for a leaf under a path. */
  function KeyOf(stack: seq<FieldRef>, leaf: FieldRef): string {
    Join(Names(stack) + [leaf.field.name], ".")
  }

  /** The walk over the first `n` fields of message `key` under `stack`,
      starting from the map `acc`. */
  function Walk(sc: Schema, ex: seq<FieldRef>, stack: seq<FieldRef>, key: string, n: nat,
                acc: map<string, FieldRef>): Result<map<string, FieldRef>>
    requires key in sc && n <= |sc[key].fields| && StackOk(sc, ex, stack)
    decreases Measure(sc, ex, stack), 1, n
  {
    if n == 0 then Ok(acc)
    else
      var prev :- Walk(sc, ex, stack, key, n - 1, acc);
      Handle(sc, ex, stack, FieldRef(key, n - 1, sc[key].fields[n - 1]), prev)
  }

  /** One field of the walk: a leaf is recorded under its key (replacing
      any earlier entry); a message field is skipped when repeated,
      excluded or on the path, and otherwise its type is walked with the
      field pushed on the path; a missing type panics. */
  function Handle(sc: Schema, ex: seq<FieldRef>, stack: seq<FieldRef>, r: FieldRef,
                  acc: map<string, FieldRef>): Result<map<string, FieldRef>>
    requires ValidRef(sc, r) && StackOk(sc, ex, stack)
    decreases Measure(sc, ex, stack), 0, 0
  {
    if !Expands(r) then Ok(acc[KeyOf(stack, r) := r])
    else if r.field.fieldLabel == LabelRepeated || r in ex || r in stack then Ok(acc)
    else if r.field.typeName !in sc then Fail(Panic)
    else
      StackPush(sc, ex, stack, r);
      Walk(sc, ex, stack + [r], r.field.typeName, |sc[r.field.typeName].fields|, acc)
  }

  /** getLeafs from the message `root` with the given excluded fields. */
  function LeafMap(sc: Schema, root: string, ex: seq<FieldRef>): Result<map<string, FieldRef>>
    requires root in sc
  {
    Walk(sc, ex, [], root, |sc[root].fields|, map[])
  }

  /** A method's outcome and the collector's map, as one result. */
  function Outcome(res: Result<()>, m: map<string, FieldRef>): Result<map<string, FieldRef>> {
    if res.Ok? then Ok(m) else Fail(res.failure)
  }

  /** The state getLeafs' closures share: the schema, the excluded fields
      and the map being filled. */
  class LeafCollector {
    const schema: Schema
    const excluded: seq<FieldRef>
    var pathsToLeafs: map<string, FieldRef>

    constructor (sc: Schema, ex: seq<FieldRef>)
      ensures schema == sc && excluded == ex && pathsToLeafs == map[]
    {
      schema := sc;
      excluded := ex;
      pathsToLeafs := map[];
    }

    /** handleLeaf: the path's names and the leaf's name, dot-joined. */
    method HandleLeaf(field: FieldRef, stack: seq<FieldRef>)
      modifies this
      ensures pathsToLeafs == old(pathsToLeafs)[KeyOf(stack, field) := field]
    {
      var elts: seq<string> := [];
      var i := 0;
      while i < |stack|
        invariant 0 <= i <= |stack|
        invariant elts == Names(stack[..i])
      {
        assert stack[..i + 1][..i] == stack[..i];
        elts := elts + [stack[i].field.name];
        i := i + 1;
      }
      assert stack[..i] == stack;
      elts := elts + [field.field.name];
      var key := Join(elts, ".");
      pathsToLeafs := pathsToLeafs[key := field];
    }

    /** handleMsg: the three guards, then the walk of the field's type. */
    method HandleMsg(field: FieldRef, stack: seq<FieldRef>) returns (res: Result<()>)
      requires ValidRef(schema, field) && Expands(field) && StackOk(schema, excluded, stack)
      modifies this
      decreases Measure(schema, excluded, stack), 0
      ensures Outcome(res, pathsToLeafs) == Handle(schema, excluded, stack, field, old(pathsToLeafs))
    {
      if field.field.fieldLabel == LabelRepeated {
        return Ok(());
      }
      var isExcluded := Contains(excluded, field);
      if isExcluded {
        return Ok(());
      }
      var onStack := Contains(stack, field);
      if onStack {
        return Ok(());
      }
      if field.field.typeName !in schema {
        return Fail(Panic);
      }
      StackPush(schema, excluded, stack, field);
      res := Recurse(stack + [field], field.field.typeName);
    }

    /** recurse: every field of the message in order, each to handleMsg or
      handleLeaf. */
    method Recurse(stack: seq<FieldRef>, key: string) returns (res: Result<()>)
      requires key in schema && StackOk(schema, excluded, stack)
      modifies this
      decreases Measure(schema, excluded, stack), 1
      ensures Outcome(res, pathsToLeafs) ==
        Walk(schema, excluded, stack, key, |schema[key].fields|, old(pathsToLeafs))
    {
      var fields := schema[key].fields;
      var i := 0;
      while i < |fields|
        invariant 0 <= i <= |fields|
        invariant Walk(schema, excluded, stack, key, i, old(pathsToLeafs)) == Ok(pathsToLeafs)
      {
        var field := FieldRef(key, i, fields[i]);
        var wellKnown := Contains(WellKnownTypes, fields[i].typeName);
        if fields[i].ftype == TypeMessage && !wellKnown {
          var r := HandleMsg(field, stack);
          if r.Fail? {
            WalkFailureStays(schema, excluded, stack, key, i + 1, |fields|, old(pathsToLeafs));
            return r;
          }
        } else {
          HandleLeaf(field, stack);
        }
        i := i + 1;
      }
      return Ok(());
    }
  }

  /** A failure part-way through a message is the walk's outcome. */
  lemma {:induction false} WalkFailureStays(sc: Schema, ex: seq<FieldRef>, stack: seq<FieldRef>, key: string,
                                            i: nat, n: nat, acc: map<string, FieldRef>)
    requires key in sc && i <= n <= |sc[key].fields| && StackOk(sc, ex, stack)
    requires Walk(sc, ex, stack, key, i, acc).Fail?
    ensures Walk(sc, ex, stack, key, n, acc) == Walk(sc, ex, stack, key, i, acc)
    decreases n
  {
    if n > i {
      WalkFailureStays(sc, ex, stack, key, i, n - 1, acc);
    }
  }

  /** getLeafs. The root is a message of the schema: both callers obtain it
      from the index first, and panic when it is missing. */
  method GetLeafs(sc: Schema, root: string, ex: seq<FieldRef>) returns (r: Result<map<string, FieldRef>>)
    requires root in sc
    ensures r == LeafMap(sc, root, ex)
  {
    var c := new LeafCollector(sc, ex);
    var res := c.Recurse([], root);
    r := Outcome(res, c.pathsToLeafs);
  }

  // ---------------------------------------------------------------------
  // What the walk collects.

  /** `p` is a chain of fields starting in message `key`: each field after
      the first belongs to the message type of the one before it. */
  predicate IsChain(sc: Schema, key: string, p: seq<FieldRef>)
    decreases |p|
  {
    p == [] || (ValidRef(sc, p[0]) && p[0].owner == key && IsChain(sc, p[0].field.typeName, p[1..]))
  }

  /** A path the walk follows from message `key` under `stack`, starting at
      one of the first `n` fields: every field but the last is walked into
      (message, not well-known, not repeated, not excluded, not already on
      the path), the fields walked into are distinct, and the last is a
      leaf. */
  predicate LeafPath(sc: Schema, ex: seq<FieldRef>, stack: seq<FieldRef>, key: string, n: nat,
                     p: seq<FieldRef>)
  {
    |p| >= 1 && IsChain(sc, key, p) && p[0].index < n
    && (forall i :: 0 <= i < |p| - 1 ==> Descends(ex, p[i]) && p[i] !in stack)
    && Distinct(p[..|p| - 1])
    && !Expands(p[|p| - 1])
  }

  /** The key of a leaf path. */
  function PathKey(stack: seq<FieldRef>, p: seq<FieldRef>): string
    requires |p| >= 1
  {
    KeyOf(stack + p[..|p| - 1], p[|p| - 1])
  }

  /** A leaf path that starts with the field `r`. */
  predicate FieldPath(sc: Schema, ex: seq<FieldRef>, stack: seq<FieldRef>, r: FieldRef, p: seq<FieldRef>) {
    LeafPath(sc, ex, stack, r.owner, r.index + 1, p) && p[0] == r
  }

  /** The entry `k -> v` comes from a leaf path among the first `n` fields. */
  ghost predicate FromPath(sc: Schema, ex: seq<FieldRef>, stack: seq<FieldRef>, key: string, n: nat,
                           k: string, v: FieldRef)
  {
    exists p :: LeafPath(sc, ex, stack, key, n, p) && PathKey(stack, p) == k && p[|p| - 1] == v
  }

  /** The entry `k -> v` comes from a leaf path starting with `r`. */
  ghost predicate FromField(sc: Schema, ex: seq<FieldRef>, stack: seq<FieldRef>, r: FieldRef,
                            k: string, v: FieldRef)
  {
    exists p :: FieldPath(sc, ex, stack, r, p) && PathKey(stack, p) == k && p[|p| - 1] == v
  }

  /** What a walk over the first `n` fields does to its starting map:
      no starting key is lost; every entry it ends with is a starting entry
      or comes from a leaf path; every leaf path gives an entry. */
  ghost predicate WalkResult(sc: Schema, ex: seq<FieldRef>, stack: seq<FieldRef>, key: string, n: nat,
                             acc: map<string, FieldRef>, m: map<string, FieldRef>)
  {
    (forall k :: k in acc ==> k in m)
    && (forall k :: k in m ==> (k in acc && m[k] == acc[k]) || FromPath(sc, ex, stack, key, n, k, m[k]))
    && (forall p :: LeafPath(sc, ex, stack, key, n, p) ==> PathKey(stack, p) in m)
  }

  /** The same for one field, with the leaf paths starting at it. */
  ghost predicate HandleResult(sc: Schema, ex: seq<FieldRef>, stack: seq<FieldRef>, r: FieldRef,
                               acc: map<string, FieldRef>, m: map<string, FieldRef>)
  {
    (forall k :: k in acc ==> k in m)
    && (forall k :: k in m ==> (k in acc && m[k] == acc[k]) || FromField(sc, ex, stack, r, k, m[k]))
    && (forall p :: FieldPath(sc, ex, stack, r, p) ==> PathKey(stack, p) in m)
  }

  /** A field that is skipped starts no leaf path. */
  lemma SkippedStartsNothing(sc: Schema, ex: seq<FieldRef>, stack: seq<FieldRef>, r: FieldRef)
    requires Expands(r) && (r.field.fieldLabel == LabelRepeated || r in ex || r in stack)
    ensures forall p :: !FieldPath(sc, ex, stack, r, p)
  {
  }

  /** A leaf starts exactly one leaf path, the leaf alone. */
  lemma LeafStartsItself(sc: Schema, ex: seq<FieldRef>, stack: seq<FieldRef>, r: FieldRef)
    requires ValidRef(sc, r) && !Expands(r)
    ensures FieldPath(sc, ex, stack, r, [r])
    ensures PathKey(stack, [r]) == KeyOf(stack, r)
    ensures forall p :: FieldPath(sc, ex, stack, r, p) ==> p == [r]
  {
    var p := [r];
    assert p[..0] == [] && stack + p[..0] == stack;
    assert p[1..] == [];
    assert IsChain(sc, r.owner, p);
  }

  /** A leaf path through a field walked into is that field followed by a
      leaf path of its type under the longer stack. */
  lemma LeafPathCons(sc: Schema, ex: seq<FieldRef>, stack: seq<FieldRef>, r: FieldRef, q: seq<FieldRef>)
    requires ValidRef(sc, r) && Descends(ex, r) && r !in stack && r.field.typeName in sc
    requires LeafPath(sc, ex, stack + [r], r.field.typeName, |sc[r.field.typeName].fields|, q)
    ensures FieldPath(sc, ex, stack, r, [r] + q)
    ensures PathKey(stack, [r] + q) == PathKey(stack + [r], q)
    ensures ([r] + q)[|q|] == q[|q| - 1]
  {
    var p := [r] + q;
    assert p[1..] == q;
    assert IsChain(sc, r.owner, p);
    assert p[..|p| - 1] == [r] + q[..|q| - 1];
    forall i | 0 <= i < |p| - 1 ensures Descends(ex, p[i]) && p[i] !in stack {
      if i > 0 {
        assert p[i] == q[i - 1];
      }
    }
    var front := p[..|p| - 1];
    forall i, j | 0 <= i < j < |front| ensures front[i] != front[j] {
      if i == 0 {
        assert p[j] == q[j - 1];
        assert q[j - 1] !in stack + [r];
      } else {
        assert p[i] == q[i - 1] && p[j] == q[j - 1];
      }
    }
    assert stack + p[..|p| - 1] == (stack + [r]) + q[..|q| - 1];
  }

  /** And back: a leaf path of more than one field, cut after its first. */
  lemma LeafPathUncons(sc: Schema, ex: seq<FieldRef>, stack: seq<FieldRef>, r: FieldRef, p: seq<FieldRef>)
    requires FieldPath(sc, ex, stack, r, p) && |p| > 1
    ensures Descends(ex, r) && r !in stack && r.field.typeName in sc
    ensures LeafPath(sc, ex, stack + [r], r.field.typeName, |sc[r.field.typeName].fields|, p[1..])
    ensures PathKey(stack, p) == PathKey(stack + [r], p[1..])
  {
    var q := p[1..];
    assert IsChain(sc, r.field.typeName, q);
    assert ValidRef(sc, q[0]) && q[0].owner == r.field.typeName;
    forall i | 0 <= i < |q| - 1 ensures Descends(ex, q[i]) && q[i] !in stack + [r] {
      assert q[i] == p[i + 1];
      assert p[..|p| - 1][0] == r && p[..|p| - 1][i + 1] == q[i];
    }
    var front := q[..|q| - 1];
    forall i, j | 0 <= i < j < |front| ensures front[i] != front[j] {
      assert p[..|p| - 1][i + 1] == q[i] && p[..|p| - 1][j + 1] == q[j];
    }
    assert p[..|p| - 1] == [r] + q[..|q| - 1];
    assert stack + p[..|p| - 1] == (stack + [r]) + q[..|q| - 1];
  }

  /** The leaf paths among the first `n` fields are those among the first
      `n - 1` and those starting at field `n - 1`. */
  lemma LeafPathSplit(sc: Schema, ex: seq<FieldRef>, stack: seq<FieldRef>, key: string, n: nat,
                      p: seq<FieldRef>)
    requires key in sc && 0 < n <= |sc[key].fields|
    ensures LeafPath(sc, ex, stack, key, n, p) <==>
      LeafPath(sc, ex, stack, key, n - 1, p) || FieldPath(sc, ex, stack, FieldRef(key, n - 1, sc[key].fields[n - 1]), p)
  {
    if LeafPath(sc, ex, stack, key, n, p) && p[0].index == n - 1 {
      assert ValidRef(sc, p[0]) && p[0].owner == key;
      assert p[0] == FieldRef(key, n - 1, sc[key].fields[n - 1]);
    }
  }

  /** The characterization of the walk, by induction on the walk itself. */
  lemma {:induction false} WalkChar(sc: Schema, ex: seq<FieldRef>, stack: seq<FieldRef>, key: string, n: nat,
                                    acc: map<string, FieldRef>, m: map<string, FieldRef>)
    requires key in sc && n <= |sc[key].fields| && StackOk(sc, ex, stack)
    requires Walk(sc, ex, stack, key, n, acc) == Ok(m)
    ensures WalkResult(sc, ex, stack, key, n, acc, m)
    decreases Measure(sc, ex, stack), 1, n
  {
    if n > 0 {
      var prev := Walk(sc, ex, stack, key, n - 1, acc).value;
      var r := FieldRef(key, n - 1, sc[key].fields[n - 1]);
      WalkChar(sc, ex, stack, key, n - 1, acc, prev);
      HandleChar(sc, ex, stack, r, prev, m);
      WalkStep(sc, ex, stack, key, n, acc, prev, m);
    }
  }

  /** The induction step of WalkChar: the result for `n - 1` fields and the
      result for field `n - 1` give the result for `n` fields. */
  lemma WalkStep(sc: Schema, ex: seq<FieldRef>, stack: seq<FieldRef>, key: string, n: nat,
                 acc: map<string, FieldRef>, prev: map<string, FieldRef>, m: map<string, FieldRef>)
    requires key in sc && 0 < n <= |sc[key].fields|
    requires WalkResult(sc, ex, stack, key, n - 1, acc, prev)
    requires HandleResult(sc, ex, stack, FieldRef(key, n - 1, sc[key].fields[n - 1]), prev, m)
    ensures WalkResult(sc, ex, stack, key, n, acc, m)
  {
    var r := FieldRef(key, n - 1, sc[key].fields[n - 1]);
    forall k | k in m
      ensures (k in acc && m[k] == acc[k]) || FromPath(sc, ex, stack, key, n, k, m[k])
    {
      if !(k in prev && m[k] == prev[k]) {
        assert FromField(sc, ex, stack, r, k, m[k]);
        var p :| FieldPath(sc, ex, stack, r, p) && PathKey(stack, p) == k && p[|p| - 1] == m[k];
        LeafPathSplit(sc, ex, stack, key, n, p);
      } else if !(k in acc && prev[k] == acc[k]) {
        assert FromPath(sc, ex, stack, key, n - 1, k, prev[k]);
        var p :| LeafPath(sc, ex, stack, key, n - 1, p) && PathKey(stack, p) == k && p[|p| - 1] == prev[k];
        LeafPathSplit(sc, ex, stack, key, n, p);
      }
    }
    forall p: seq<FieldRef> | LeafPath(sc, ex, stack, key, n, p) ensures PathKey(stack, p) in m {
      LeafPathSplit(sc, ex, stack, key, n, p);
    }
  }

  /** The same for one field: what it adds comes from a leaf path that
      starts with it, and every such path gives an entry. */
  lemma {:induction false} HandleChar(sc: Schema, ex: seq<FieldRef>, stack: seq<FieldRef>, r: FieldRef,
                                      acc: map<string, FieldRef>, m: map<string, FieldRef>)
    requires ValidRef(sc, r) && StackOk(sc, ex, stack)
    requires Handle(sc, ex, stack, r, acc) == Ok(m)
    ensures HandleResult(sc, ex, stack, r, acc, m)
    decreases Measure(sc, ex, stack), 0, 0
  {
    if !Expands(r) {
      LeafStartsItself(sc, ex, stack, r);
      assert m == acc[KeyOf(stack, r) := r];
    } else if r.field.fieldLabel == LabelRepeated || r in ex || r in stack {
      SkippedStartsNothing(sc, ex, stack, r);
    } else {
      var t := r.field.typeName;
      StackPush(sc, ex, stack, r);
      WalkChar(sc, ex, stack + [r], t, |sc[t].fields|, acc, m);
      DescendStep(sc, ex, stack, r, acc, m);
    }
  }

  /** The step of HandleChar for a field walked into. */
  lemma DescendStep(sc: Schema, ex: seq<FieldRef>, stack: seq<FieldRef>, r: FieldRef,
                    acc: map<string, FieldRef>, m: map<string, FieldRef>)
    requires ValidRef(sc, r) && Descends(ex, r) && r !in stack && r.field.typeName in sc
    requires WalkResult(sc, ex, stack + [r], r.field.typeName, |sc[r.field.typeName].fields|, acc, m)
    ensures HandleResult(sc, ex, stack, r, acc, m)
  {
    forall k | k in m && !(k in acc && m[k] == acc[k])
      ensures FromField(sc, ex, stack, r, k, m[k])
    {
      DescendSound(sc, ex, stack, r, k, m[k]);
    }
    forall p | FieldPath(sc, ex, stack, r, p) ensures PathKey(stack, p) in m {
      DescendComplete(sc, ex, stack, r, p);
    }
  }

  lemma DescendSound(sc: Schema, ex: seq<FieldRef>, stack: seq<FieldRef>, r: FieldRef, k: string, v: FieldRef)
    requires ValidRef(sc, r) && Descends(ex, r) && r !in stack && r.field.typeName in sc
    requires FromPath(sc, ex, stack + [r], r.field.typeName, |sc[r.field.typeName].fields|, k, v)
    ensures FromField(sc, ex, stack, r, k, v)
  {
    var t := r.field.typeName;
    var q :| LeafPath(sc, ex, stack + [r], t, |sc[t].fields|, q) && PathKey(stack + [r], q) == k
             && q[|q| - 1] == v;
    ConsFromField(sc, ex, stack, r, q);
  }

  lemma ConsFromField(sc: Schema, ex: seq<FieldRef>, stack: seq<FieldRef>, r: FieldRef, q: seq<FieldRef>)
    requires ValidRef(sc, r) && Descends(ex, r) && r !in stack && r.field.typeName in sc
    requires LeafPath(sc, ex, stack + [r], r.field.typeName, |sc[r.field.typeName].fields|, q)
    ensures FromField(sc, ex, stack, r, PathKey(stack + [r], q), q[|q| - 1])
  {
    LeafPathCons(sc, ex, stack, r, q);
    var p := [r] + q;
    assert |p| - 1 == |q|;
    FromFieldIntro(sc, ex, stack, r, PathKey(stack + [r], q), q[|q| - 1], p);
  }

  lemma FromFieldIntro(sc: Schema, ex: seq<FieldRef>, stack: seq<FieldRef>, r: FieldRef, k: string, v: FieldRef,
                       p: seq<FieldRef>)
    requires FieldPath(sc, ex, stack, r, p) && PathKey(stack, p) == k && p[|p| - 1] == v
    ensures FromField(sc, ex, stack, r, k, v)
  {
  }

  lemma DescendComplete(sc: Schema, ex: seq<FieldRef>, stack: seq<FieldRef>, r: FieldRef, p: seq<FieldRef>)
    requires ValidRef(sc, r) && Descends(ex, r) && FieldPath(sc, ex, stack, r, p)
    ensures |p| > 1 && r.field.typeName in sc
    ensures LeafPath(sc, ex, stack + [r], r.field.typeName, |sc[r.field.typeName].fields|, p[1..])
    ensures PathKey(stack, p) == PathKey(stack + [r], p[1..])
  {
    assert |p| > 1;
    LeafPathUncons(sc, ex, stack, r, p);
  }

  // ---------------------------------------------------------------------
  // getLeafs from a request message.

  /** Every entry of the leaf map is the key of a leaf path from the root,
      mapped to that path's leaf, and every leaf path from the root has its
      key in the map. */
  lemma LeafMapChar(sc: Schema, root: string, ex: seq<FieldRef>)
    requires root in sc && LeafMap(sc, root, ex).Ok?
    ensures forall k :: k in LeafMap(sc, root, ex).value ==>
      FromPath(sc, ex, [], root, |sc[root].fields|, k, LeafMap(sc, root, ex).value[k])
    ensures forall p :: LeafPath(sc, ex, [], root, |sc[root].fields|, p) ==>
      PathKey([], p) in LeafMap(sc, root, ex).value
  {
    WalkChar(sc, ex, [], root, |sc[root].fields|, map[], LeafMap(sc, root, ex).value);
  }

  /** The map holds only leaves: scalar fields, enums, well-known types. */
  lemma LeafMapValuesAreLeaves(sc: Schema, root: string, ex: seq<FieldRef>, k: string)
    requires root in sc && LeafMap(sc, root, ex).Ok? && k in LeafMap(sc, root, ex).value
    ensures !Expands(LeafMap(sc, root, ex).value[k])
    ensures ValidRef(sc, LeafMap(sc, root, ex).value[k])
  {
    LeafMapChar(sc, root, ex);
    var v := LeafMap(sc, root, ex).value[k];
    var p :| LeafPath(sc, ex, [], root, |sc[root].fields|, p) && PathKey([], p) == k && p[|p| - 1] == v;
    ChainValid(sc, root, p, |p| - 1);
  }

  /** Every field of a chain is a field of the schema. */
  lemma {:induction false} ChainValid(sc: Schema, key: string, p: seq<FieldRef>, i: nat)
    requires IsChain(sc, key, p) && i < |p|
    ensures ValidRef(sc, p[i])
    decreases i
  {
    if i > 0 {
      ChainValid(sc, p[0].field.typeName, p[1..], i - 1);
    }
  }

  /** A leaf field of the root itself is in the map under its own name. */
  lemma RootLeafCollected(sc: Schema, root: string, ex: seq<FieldRef>, j: nat)
    requires root in sc && j < |sc[root].fields| && LeafMap(sc, root, ex).Ok?
    requires !Expands(FieldRef(root, j, sc[root].fields[j]))
    ensures sc[root].fields[j].name in LeafMap(sc, root, ex).value
  {
    var r := FieldRef(root, j, sc[root].fields[j]);
    LeafStartsItself(sc, ex, [], r);
    LeafMapChar(sc, root, ex);
    assert LeafPath(sc, ex, [], root, |sc[root].fields|, [r]);
    assert Names([]) + [r.field.name] == [r.field.name];
    assert PathKey([], [r]) == r.field.name;
  }

  /** A walk fails only by the panic of a missing message type, and a
      closed schema has none. */
  lemma {:induction false} WalkOutcome(sc: Schema, ex: seq<FieldRef>, stack: seq<FieldRef>, key: string, n: nat,
                                       acc: map<string, FieldRef>)
    requires key in sc && n <= |sc[key].fields| && StackOk(sc, ex, stack)
    ensures Walk(sc, ex, stack, key, n, acc).Fail? ==> Walk(sc, ex, stack, key, n, acc) == Fail(Panic)
    ensures Closed(sc) ==> Walk(sc, ex, stack, key, n, acc).Ok?
    decreases Measure(sc, ex, stack), 1, n
  {
    if n > 0 {
      WalkOutcome(sc, ex, stack, key, n - 1, acc);
      var prev := Walk(sc, ex, stack, key, n - 1, acc);
      if prev.Ok? {
        HandleOutcome(sc, ex, stack, FieldRef(key, n - 1, sc[key].fields[n - 1]), prev.value);
      }
    }
  }

  lemma {:induction false} HandleOutcome(sc: Schema, ex: seq<FieldRef>, stack: seq<FieldRef>, r: FieldRef,
                                         acc: map<string, FieldRef>)
    requires ValidRef(sc, r) && StackOk(sc, ex, stack)
    ensures Handle(sc, ex, stack, r, acc).Fail? ==> Handle(sc, ex, stack, r, acc) == Fail(Panic)
    ensures Closed(sc) ==> Handle(sc, ex, stack, r, acc).Ok?
    decreases Measure(sc, ex, stack), 0, 0
  {
    if Expands(r) && !(r.field.fieldLabel == LabelRepeated || r in ex || r in stack) && r.field.typeName in sc {
      StackPush(sc, ex, stack, r);
      WalkOutcome(sc, ex, stack + [r], r.field.typeName, |sc[r.field.typeName].fields|, acc);
    }
  }

  lemma LeafMapOutcome(sc: Schema, root: string, ex: seq<FieldRef>)
    requires root in sc
    ensures LeafMap(sc, root, ex).Fail? ==> LeafMap(sc, root, ex) == Fail(Panic)
    ensures Closed(sc) ==> LeafMap(sc, root, ex).Ok?
  {
    WalkOutcome(sc, ex, [], root, |sc[root].fields|, map[]);
  }
}
