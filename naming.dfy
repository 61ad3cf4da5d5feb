/** Identifier and accessor strings (goapi/rest.go): snakeToCamel,
    upperFirst, buildAccessor with its two faces fieldGetter and
    directAccess, and isRequired. */
module Naming {

  import opened Wrappers
  import opened Strings
  import opened Descriptors

  /** snakeToCamel's `up` flag when it reaches `s[i]`: set at the start and
      after every underscore, cleared by any other character. */
  predicate UpAt(s: string, i: nat)
    requires i <= |s|
  {
    i == 0 || s[i - 1] == '_'
  }

  /** What snakeToCamel writes for `s[i]`: nothing for `_`; a digit that
      starts a word gets a `_` in front; a letter that starts a word is
      upper-cased; every other character is lower-cased. */
  function CamelPiece(s: string, i: nat): string
    requires i < |s|
  {
    if s[i] == '_' then ""
    else if UpAt(s, i) && IsAsciiDigit(s[i]) then ['_', s[i]]
    else if UpAt(s, i) then [UpperChar(s[i])]
    else [LowerChar(s[i])]
  }

  /** What snakeToCamel has written after the first `n` characters. */
  function CamelPrefix(s: string, n: nat): string
    requires n <= |s|
  {
    if n == 0 then "" else CamelPrefix(s, n - 1) + CamelPiece(s, n - 1)
  }

  /** The CamelCase form of a snake_case name, character by character. */
  function Camel(s: string): string {
    CamelPrefix(s, |s|)
  }

  /** snakeToCamel: one pass with the `up` flag. */
  method SnakeToCamel(s: string) returns (r: string)
    ensures r == Camel(s)
  {
    var sb := "";
    var up := true;
    var i := 0;
    while i < |s|
      invariant 0 <= i <= |s|
      invariant up == UpAt(s, i)
      invariant sb == CamelPrefix(s, i)
    {
      var c := s[i];
      if c == '_' {
        up := true;
      } else if up && IsAsciiDigit(c) {
        sb := sb + ['_'] + [c];
        up := false;
      } else if up {
        sb := sb + [UpperChar(c)];
        up := false;
      } else {
        sb := sb + [LowerChar(c)];
      }
      i := i + 1;
    }
    r := sb;
  }

  /** Every `_` in `r` is followed by a digit. */
  predicate UnderscoresBeforeDigits(r: string) {
    forall j :: 0 <= j < |r| && r[j] == '_' ==> j + 1 < |r| && IsAsciiDigit(r[j + 1])
  }

  /** Every `_` that snakeToCamel writes is followed by a digit: the input's
      own underscores are all dropped. */
  lemma {:induction false} CamelUnderscoresPrecedeDigits(s: string, n: nat)
    requires n <= |s|
    ensures UnderscoresBeforeDigits(CamelPrefix(s, n))
  {
    if n > 0 {
      CamelUnderscoresPrecedeDigits(s, n - 1);
      var p, q := CamelPrefix(s, n - 1), CamelPiece(s, n - 1);
      var r := p + q;
      assert r == CamelPrefix(s, n);
      var c := s[n - 1];
      if c != '_' && !(UpAt(s, n - 1) && IsAsciiDigit(c)) {
        CaseMapKeepsNonLetters(c, '_');
        assert |q| == 1 && q[0] != '_';
      }
      forall j | 0 <= j < |r| && r[j] == '_'
        ensures j + 1 < |r| && IsAsciiDigit(r[j + 1])
      {
        if j < |p| {
          assert p[j] == '_';
          assert j + 1 < |p|;
          assert r[j + 1] == p[j + 1];
        } else {
          assert q[j - |p|] == '_';
          assert q == ['_', c] && j == |p|;
          assert r[j + 1] == c;
        }
      }
    }
  }

  /** A word of lower-case letters is capitalised and otherwise kept. */
  lemma {:induction false} CamelLowerWord(s: string, n: nat)
    requires 1 <= n <= |s|
    requires forall i :: 0 <= i < |s| ==> 'a' <= s[i] <= 'z'
    ensures CamelPrefix(s, n) == [UpperChar(s[0])] + s[1..n]
  {
    if n > 1 {
      CamelLowerWord(s, n - 1);
      assert s[1..n] == s[1..n - 1] + [s[n - 1]];
    }
  }

  /** A snake_case name without digits or upper-case letters: its words are
      capitalised, and nothing else changes except that `_` is dropped. */
  lemma CamelAsciiExample()
    ensures Camel("mass_kg") == "MassKg"
    ensures Camel("f_1st") == "F_1st"
  {
    var a := "mass_kg";
    assert CamelPrefix(a, 1) == "M";
    assert CamelPrefix(a, 2) == "Ma";
    assert CamelPrefix(a, 3) == "Mas";
    assert CamelPrefix(a, 4) == "Mass";
    assert CamelPrefix(a, 5) == "Mass";
    assert CamelPrefix(a, 6) == "MassK";
    assert CamelPrefix(a, 7) == "MassKg";
    var b := "f_1st";
    assert CamelPrefix(b, 1) == "F";
    assert CamelPrefix(b, 2) == "F";
    assert CamelPrefix(b, 3) == "F_1";
    assert CamelPrefix(b, 4) == "F_1s";
    assert CamelPrefix(b, 5) == "F_1st";
  }

  /** upperFirst: only the first character changes, and it is upper-cased. */
  function UpperFirst(s: string): (r: string)
    ensures |r| == |s|
    ensures s == "" ==> r == ""
    ensures s != "" ==> r[0] == UpperChar(s[0]) && r[1..] == s[1..]
  {
    if s == "" then "" else [UpperChar(s[0])] + s[1..]
  }

  /** `.Get<Camel>()` for each segment, in order. */
  function Getters(segs: seq<string>): string {
    if segs == [] then "" else ".Get" + Camel(segs[0]) + "()" + Getters(segs[1..])
  }

  lemma {:induction false} GettersAppend(a: seq<string>, b: seq<string>)
    ensures Getters(a + b) == Getters(a) + Getters(b)
    decreases |a|
  {
    if a != [] {
      assert (a + b)[1..] == a[1..] + b;
      GettersAppend(a[1..], b);
    } else {
      assert a + b == b;
    }
  }

  /** The Go expression that reaches the field named by a dotted path; with
      `rawFinal` the last segment is read directly instead of via its
      getter. */
  function Accessor(field: string, rawFinal: bool): string {
    if field == "" then ""
    else
      var split := Split(field, ".");
      if rawFinal then Getters(split[..|split| - 1]) + "." + Camel(Last(split))
      else Getters(split)
  }

  /** buildAccessor: one `.Get<Camel>()` per segment written in a loop, the
      last left out and written as `.<Camel>` when `rawFinal` is set. */
  method BuildAccessor(field: string, rawFinal: bool) returns (ax: string)
    ensures ax == Accessor(field, rawFinal)
  {
    if field == "" {
      return "";
    }
    ax := "";
    var split := Split(field, ".");
    var idx := |split|;
    if rawFinal {
      idx := idx - 1;
    }
    var i := 0;
    while i < idx
      invariant 0 <= i <= idx
      invariant ax == Getters(split[..i])
    {
      var camel := SnakeToCamel(split[i]);
      var piece := ".Get" + camel + "()";
      GettersOne(split[i]);
      GettersAppend(split[..i], [split[i]]);
      assert split[..i + 1] == split[..i] + [split[i]];
      ax := ax + piece;
      i := i + 1;
    }
    if rawFinal {
      var camel := SnakeToCamel(split[|split| - 1]);
      ax := ax + ("." + camel);
    } else {
      assert split[..idx] == split;
    }
  }

  function FieldGetter(field: string): string {
    Accessor(field, false)
  }

  function DirectAccess(field: string): string {
    Accessor(field, true)
  }

  /** A dotted path built from names without dots splits back into them. */
  lemma SplitPath(names: seq<string>)
    requires |names| >= 1
    requires forall n :: n in names ==> '.' !in n
    ensures Split(Join(names, "."), ".") == names
  {
    SplitJoin(names, '.');
  }

  /** The two accessors of a non-empty path in terms of its segments. */
  lemma AccessorsOfSegments(path: string, names: seq<string>)
    requires path != "" && Split(path, ".") == names
    ensures FieldGetter(path) == Getters(names)
    ensures DirectAccess(path) == Getters(names[..|names| - 1]) + "." + Camel(names[|names| - 1])
  {
  }

  lemma GettersOne(x: string)
    ensures Getters([x]) == ".Get" + Camel(x) + "()"
  {
    assert [x][1..] == [];
  }

  /** The getter of the last segment comes last. */
  lemma GettersLast(names: seq<string>)
    requires |names| >= 1
    ensures Getters(names) ==
      Getters(names[..|names| - 1]) + ".Get" + Camel(names[|names| - 1]) + "()"
  {
    var k := |names| - 1;
    var a, x := names[..k], names[k];
    assert a + [x] == names;
    GettersAppend(a, [x]);
    GettersOne(x);
    Regroup(Getters(a), ".Get", Camel(x), "()");
  }

  /** Associativity of concatenation, stated on variables so that the
      caller's proof does not reason about its long strings. */
  lemma Regroup(g: string, p: string, c: string, q: string)
    ensures g + (p + c + q) == g + p + c + q
  {
  }

  /** The two accessors of a path built from field names: fieldGetter has
      one `.Get<Camel>()` per name; directAccess has the same pieces for all
      names but the last, then `.<Camel>` for the last. */
  lemma AccessorsOfPath(names: seq<string>)
    requires |names| >= 1
    requires forall n :: n in names ==> '.' !in n
    requires Join(names, ".") != ""
    ensures FieldGetter(Join(names, ".")) == Getters(names)
    ensures DirectAccess(Join(names, ".")) ==
      Getters(names[..|names| - 1]) + "." + Camel(names[|names| - 1])
    ensures FieldGetter(Join(names, ".")) ==
      Getters(names[..|names| - 1]) + ".Get" + Camel(names[|names| - 1]) + "()"
  {
    SplitPath(names);
    AccessorsOfSegments(Join(names, "."), names);
    GettersLast(names);
  }

  lemma ExampleCamels(a: string, b: string, c: string)
    requires a == "squid" && b == "mantle" && c == "mass_kg"
    ensures Camel(a) == "Squid" && Camel(b) == "Mantle" && Camel(c) == "MassKg"
  {
    CamelLowerWord(a, 5);
    CamelLowerWord(b, 6);
    CamelAsciiExample();
  }

  /** The accessors of a three-segment path. */
  lemma AccessorsOfThree(a: string, b: string, c: string)
    requires '.' !in a && '.' !in b && '.' !in c
    ensures FieldGetter(Join([a, b, c], ".")) ==
      ".Get" + Camel(a) + "()" + (".Get" + Camel(b) + "()" + (".Get" + Camel(c) + "()"))
    ensures DirectAccess(Join([a, b, c], ".")) ==
      ".Get" + Camel(a) + "()" + (".Get" + Camel(b) + "()") + "." + Camel(c)
  {
    var names := [a, b, c];
    assert names[1..] == [b, c] && names[1..][1..] == [c];
    assert Join(names[1..], ".") == b + "." + c;
    assert Join(names, ".") == a + "." + (b + "." + c);
    SplitPath(names);
    AccessorsOfSegments(Join(names, "."), names);
    assert names[1..] == [b, c] && names[1..][1..] == [c];
    GettersOne(c);
    assert names[..2] == [a, b] && names[..2][1..] == [b];
    GettersOne(b);
  }

  /** A step of AccessorExamples: the documented strings assembled from
      the camel-cased names, kept apart so that its string literals do not
      enter the larger proof. */
  lemma ExampleGetters(x: string, y: string, z: string)
    requires x == "Squid" && y == "Mantle" && z == "MassKg"
    ensures ".Get" + x + "()" + (".Get" + y + "()" + (".Get" + z + "()")) ==
      ".GetSquid().GetMantle().GetMassKg()"
    ensures ".Get" + x + "()" + (".Get" + y + "()") + "." + z == ".GetSquid().GetMantle().MassKg"
  {
  }

  /** The example the source documents: the path `squid.mantle.mass_kg`
      made of the names `squid`, `mantle` and `mass_kg`. */
  lemma AccessorExamples(a: string, b: string, c: string)
    requires a == "squid" && b == "mantle" && c == "mass_kg"
    ensures FieldGetter(Join([a, b, c], ".")) == ".GetSquid().GetMantle().GetMassKg()"
    ensures DirectAccess(Join([a, b, c], ".")) == ".GetSquid().GetMantle().MassKg"
  {
    assert '.' !in a && '.' !in b && '.' !in c;
    AccessorsOfThree(a, b, c);
    ExampleCamels(a, b, c);
    ExampleGetters(Camel(a), Camel(b), Camel(c));
  }

  /** The empty path has no accessor at all. */
  lemma AccessorsOfEmpty()
    ensures FieldGetter("") == "" && DirectAccess("") == ""
  {
  }

  /** A field is required when it has options and REQUIRED is among its
      behaviours. */
  predicate Required(f: Field) {
    f.behaviors.Some? && BehaviorRequired in f.behaviors.value
  }

  /** isRequired: no options means not required; otherwise a search of the
      behaviour list for REQUIRED. */
  method IsRequired(f: Field) returns (b: bool)
    ensures b <==> f.behaviors.Some? && BehaviorRequired in f.behaviors.value
  {
    if f.behaviors.None? {
      return false;
    }
    var behaviors := f.behaviors.value;
    var i := 0;
    while i < |behaviors|
      invariant 0 <= i <= |behaviors|
      invariant BehaviorRequired !in behaviors[..i]
    {
      if behaviors[i] == BehaviorRequired {
        return true;
      }
      assert behaviors[..i + 1] == behaviors[..i] + [behaviors[i]];
      i := i + 1;
    }
    assert behaviors[..i] == behaviors;
    return false;
  }
}
