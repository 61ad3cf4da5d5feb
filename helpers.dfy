/** The two small helpers of goapi/gen.go: strContains and typeName. */
module GenHelpers {

  import opened Strings

  /** strContains: a linear search for an element equal to `s`. The same
      loop, over field descriptors, is getLeafs' `contains` closure. */
  method Contains<T(==)>(a: seq<T>, s: T) returns (b: bool)
    ensures b <==> s in a
  {
    var i := 0;
    while i < |a|
      invariant 0 <= i <= |a|
      invariant s !in a[..i]
    {
      if a[i] == s {
        return true;
      }
      assert a[..i + 1] == a[..i] + [a[i]];
      i := i + 1;
    }
    assert a[..i] == a;
    return false;
  }

  /** typeName: the last dot-separated segment of a type name. */
  function TypeName(str: string): (r: string)
    ensures '.' !in r
    ensures exists front :: str == front + r && (front == "" || front[|front| - 1] == '.')
  {
    LastSegment(str);
    Last(Split(str, "."))
  }

  lemma LastSegment(str: string)
    ensures '.' !in Last(Split(str, "."))
    ensures exists front :: str == front + Last(Split(str, ".")) && (front == "" || front[|front| - 1] == '.')
  {
    var sp := Split(str, ".");
    SplitCharPieces(str, '.');
    assert Last(sp) in sp;
    JoinSplit(str, ".");
    if |sp| == 1 {
      assert str == "" + Last(sp);
    } else {
      var front := Join(sp[..|sp| - 1], ".") + ".";
      FrontOfLast(sp, front);
      assert str == front + Last(sp);
    }
  }

  lemma FrontOfLast(sp: seq<string>, front: string)
    requires |sp| >= 2 && front == Join(sp[..|sp| - 1], ".") + "."
    ensures Join(sp, ".") == front + Last(sp)
    ensures front[|front| - 1] == '.'
  {
    JoinLast(sp[..|sp| - 1], Last(sp), ".");
    assert sp[..|sp| - 1] + [Last(sp)] == sp;
  }

  /** A dot-joined path of names without dots has its last name as type name. */
  lemma TypeNameOfPath(parts: seq<string>)
    requires |parts| >= 1 && forall p :: p in parts ==> '.' !in p
    ensures TypeName(Join(parts, ".")) == Last(parts)
  {
    SplitJoin(parts, '.');
  }

  /** The fully-qualified name `.pkg.Msg` has the type name `Msg`. */
  lemma TypeNameExample(s: string)
    requires s == ".pkg.Msg"
    ensures TypeName(s) == "Msg"
  {
    var parts := ["", "pkg", "Msg"];
    assert parts[1..] == ["pkg", "Msg"] && parts[1..][1..] == ["Msg"];
    assert Join(parts, ".") == s;
    assert '.' !in "pkg" && '.' !in "Msg";
    TypeNameOfPath(parts);
  }
}
