/** The URL template of a binding (goapi/rest.go): the placeholder pattern
    `{([a-zA-Z0-9_.]+?)(=[^{}]+)?}` that baseURL and the `%v` format use,
    and the looser pattern `{([^}]+)}` that pathParams uses. Both are
    scanned left to right the way a regular-expression FindAll does: the
    leftmost match, then the next one from where it ended. */
module UrlTemplate {

  import opened Wrappers
  import opened Strings
  import opened Naming
  import opened Binding

  /** The characters of `[a-zA-Z0-9_.]`. */
  predicate IsNameChar(c: char) {
    'a' <= c <= 'z' || 'A' <= c <= 'Z' || '0' <= c <= '9' || c == '_' || c == '.'
  }

  predicate IsBrace(c: char) { c == '{' || c == '}' }

  /** The end of the run of name characters that starts at `j`. */
  function NameEnd(s: string, j: nat): (r: nat)
    requires j <= |s|
    ensures j <= r <= |s|
    ensures forall k :: j <= k < r ==> IsNameChar(s[k])
    ensures r < |s| ==> !IsNameChar(s[r])
    decreases |s| - j
  {
    if j == |s| || !IsNameChar(s[j]) then j else NameEnd(s, j + 1)
  }

  /** The first brace at or after `j`, or the end. */
  function BraceFrom(s: string, j: nat): (r: nat)
    requires j <= |s|
    ensures j <= r <= |s|
    ensures forall k :: j <= k < r ==> !IsBrace(s[k])
    ensures r < |s| ==> IsBrace(s[r])
    decreases |s| - j
  {
    if j == |s| || IsBrace(s[j]) then j else BraceFrom(s, j + 1)
  }

  /** The first `}` at or after `j`, or the end. */
  function CloseFrom(s: string, j: nat): (r: nat)
    requires j <= |s|
    ensures j <= r <= |s|
    ensures forall k :: j <= k < r ==> s[k] != '}'
    ensures r < |s| ==> s[r] == '}'
    decreases |s| - j
  {
    if j == |s| || s[j] == '}' then j else CloseFrom(s, j + 1)
  }

  /** A match `s[start..end]` and its first group. */
  datatype Match = Match(start: nat, end: nat, group: string)

  /** A placeholder of the first pattern: `{name}` or `{name=capture}`
      with a non-empty name of name characters and a non-empty capture
      without braces. */
  predicate IsVarToken(t: string, name: string) {
    |t| >= 3 && t[0] == '{' && t[|t| - 1] == '}'
    && 0 < |name| && 1 + |name| < |t| && t[1..1 + |name|] == name
    && (forall k :: 0 <= k < |name| ==> IsNameChar(name[k]))
    && ((t[1 + |name|] == '}' && |t| == 2 + |name|) ||
        (t[1 + |name|] == '=' && 2 + |name| < |t| - 1 &&
         forall k :: 2 + |name| <= k < |t| - 1 ==> !IsBrace(t[k])))
  }

  /** The match of `{([a-zA-Z0-9_.]+?)(=[^{}]+)?}` that starts at `i`. The
      lazy name can only stop where a `}` or `=` follows, neither of which
      is a name character, so it runs to the end of the name characters;
      the capture cannot hold a brace, so it runs to the next brace, which
      must close the match. */
  function VarMatchAt(s: string, i: nat): (r: Option<Match>)
    requires i < |s|
    ensures r.Some? ==> r.value.start == i && i + 3 <= r.value.end <= |s|
    ensures r.Some? ==> IsVarToken(s[i..r.value.end], r.value.group)
  {
    if s[i] != '{' then None
    else
      var j := NameEnd(s, i + 1);
      if j == i + 1 || j == |s| then None
      else if s[j] == '}' then
        TokenOfName(s, i, j);
        Some(Match(i, j + 1, s[i + 1..j]))
      else if s[j] == '=' then
        var k := BraceFrom(s, j + 1);
        if k == j + 1 || k == |s| || s[k] != '}' then None
        else
          TokenWithCapture(s, i, j, k);
          Some(Match(i, k + 1, s[i + 1..j]))
      else None
  }

  /** `{name}` where the name is the run of name characters. */
  lemma TokenOfName(s: string, i: nat, j: nat)
    requires i < |s| && s[i] == '{' && i + 1 < j < |s| && s[j] == '}'
    requires forall k :: i + 1 <= k < j ==> IsNameChar(s[k])
    ensures IsVarToken(s[i..j + 1], s[i + 1..j])
  {
    var t := s[i..j + 1];
    var name := s[i + 1..j];
    assert t[0] == '{' && t[|t| - 1] == '}';
    assert |t[1..1 + |name|]| == |name|;
    forall q | 0 <= q < |name| ensures t[1..1 + |name|][q] == name[q] {
      assert t[1 + q] == s[i + 1 + q];
    }
    assert t[1..1 + |name|] == name;
    forall k | 0 <= k < |name| ensures IsNameChar(name[k]) {
      assert name[k] == s[i + 1 + k];
    }
    assert t[1 + |name|] == '}' && |t| == 2 + |name|;
  }

  /** `{name=capture}` where the capture runs to the next brace. */
  lemma TokenWithCapture(s: string, i: nat, j: nat, k: nat)
    requires i < |s| && s[i] == '{' && i + 1 < j && j + 1 < k < |s| && s[j] == '=' && s[k] == '}'
    requires forall q :: i + 1 <= q < j ==> IsNameChar(s[q])
    requires forall q :: j + 1 <= q < k ==> !IsBrace(s[q])
    ensures IsVarToken(s[i..k + 1], s[i + 1..j])
  {
    var t := s[i..k + 1];
    var name := s[i + 1..j];
    assert t[0] == '{' && t[|t| - 1] == '}';
    assert |t[1..1 + |name|]| == |name|;
    forall q | 0 <= q < |name| ensures t[1..1 + |name|][q] == name[q] {
      assert t[1 + q] == s[i + 1 + q];
    }
    assert t[1..1 + |name|] == name;
    forall q | 0 <= q < |name| ensures IsNameChar(name[q]) {
      assert name[q] == s[i + 1 + q];
    }
    assert t[1 + |name|] == '=' && 2 + |name| < |t| - 1;
    forall q | 2 + |name| <= q < |t| - 1 ensures !IsBrace(t[q]) {
      assert t[q] == s[i + q];
    }
  }

  /** Every placeholder that starts at `i` is the one VarMatchAt finds:
      there is at most one, and the scan finds it. */
  lemma VarMatchAtComplete(s: string, i: nat, e: nat, name: string)
    requires i < e <= |s| && IsVarToken(s[i..e], name)
    ensures VarMatchAt(s, i) == Some(Match(i, e, name))
  {
    var t := s[i..e];
    assert s[i] == t[0];
    var j := NameEnd(s, i + 1);
    forall k | i + 1 <= k < i + 1 + |name| ensures IsNameChar(s[k]) {
      assert s[k] == t[k - i] == name[k - i - 1];
    }
    assert s[i + 1 + |name|] == t[1 + |name|];
    if j < i + 1 + |name| {
      assert false;
    }
    assert j == i + 1 + |name|;
    assert s[i + 1..j] == name;
    if s[j] != '}' {
      assert s[j] == '=';
      var k := BraceFrom(s, j + 1);
      forall q | j + 1 <= q < e - 1 ensures !IsBrace(s[q]) {
        assert s[q] == t[q - i];
      }
      assert s[e - 1] == t[|t| - 1];
      if k < e - 1 {
        assert false;
      }
      assert k == e - 1;
    }
  }

  /** FindAllStringSubmatch with the first pattern, from position `i`. */
  function VarMatches(s: string, i: nat): (ms: seq<Match>)
    requires i <= |s|
    ensures forall k :: 0 <= k < |ms| ==> i <= ms[k].start && ms[k].end <= |s|
    decreases |s| - i
  {
    if i == |s| then []
    else match VarMatchAt(s, i)
      case Some(m) => [m] + VarMatches(s, m.end)
      case None => VarMatches(s, i + 1)
  }

  /** ReplaceAllStringFunc with the constant replacement `%v`, from `i`. */
  function Format(s: string, i: nat): string
    requires i <= |s|
    decreases |s| - i
  {
    if i == |s| then ""
    else match VarMatchAt(s, i)
      case Some(m) => "%v" + Format(s, m.end)
      case None => [s[i]] + Format(s, i + 1)
  }

  /** The text of `s` from `i` with the given ordered matches replaced by
      `%v` and everything between them kept. */
  function Splice(s: string, i: nat, ms: seq<Match>): string
    requires i <= |s|
    requires Ordered(i, |s|, ms)
    decreases |ms|
  {
    if ms == [] then s[i..] else s[i..ms[0].start] + "%v" + Splice(s, ms[0].end, ms[1..])
  }

  /** Matches that do not overlap, in order, between `i` and `n`. */
  predicate Ordered(i: nat, n: nat, ms: seq<Match>)
    decreases |ms|
  {
    if ms == [] then i <= n
    else i <= ms[0].start < ms[0].end <= n && Ordered(ms[0].end, n, ms[1..])
  }

  /** The leftmost-first match sequence: no placeholder starts before the
      first match, the first match is the placeholder at its start, and the
      rest is the leftmost-first sequence after it. */
  ghost predicate Leftmost(s: string, i: nat, ms: seq<Match>)
    requires i <= |s|
    decreases |ms|
  {
    if ms == [] then forall j :: i <= j < |s| ==> VarMatchAt(s, j).None?
    else
      i <= ms[0].start < |s| && ms[0].end <= |s|
      && (forall j :: i <= j < ms[0].start ==> VarMatchAt(s, j).None?)
      && VarMatchAt(s, ms[0].start) == Some(ms[0])
      && Leftmost(s, ms[0].end, ms[1..])
  }

  /** The matches are in template order and do not overlap. */
  lemma {:induction false} VarMatchesOrdered(s: string, i: nat)
    requires i <= |s|
    ensures Ordered(i, |s|, VarMatches(s, i))
    decreases |s| - i
  {
    if i < |s| {
      match VarMatchAt(s, i) {
        case Some(m) => VarMatchesOrdered(s, m.end);
        case None => VarMatchesOrdered(s, i + 1);
      }
    }
  }

  /** The scan finds exactly the leftmost-first matches: they are leftmost
      first, and no other sequence is. */
  lemma {:induction false} VarMatchesLeftmost(s: string, i: nat)
    requires i <= |s|
    ensures Leftmost(s, i, VarMatches(s, i))
    decreases |s| - i
  {
    if i < |s| {
      match VarMatchAt(s, i) {
        case Some(m) =>
          VarMatchesLeftmost(s, m.end);
          LeftmostCons(s, i, m, VarMatches(s, m.end));
        case None =>
          VarMatchesLeftmost(s, i + 1);
          LeftmostSkip(s, i, VarMatches(s, i + 1));
      }
    }
  }

  lemma LeftmostCons(s: string, i: nat, m: Match, rest: seq<Match>)
    requires i < |s| && VarMatchAt(s, i) == Some(m)
    requires Leftmost(s, m.end, rest)
    ensures Leftmost(s, i, [m] + rest)
  {
    assert ([m] + rest)[1..] == rest;
  }

  lemma LeftmostSkip(s: string, i: nat, ms: seq<Match>)
    requires i < |s| && VarMatchAt(s, i).None?
    requires Leftmost(s, i + 1, ms)
    ensures Leftmost(s, i, ms)
  {
  }

  lemma {:induction false} LeftmostUnique(s: string, i: nat, ms: seq<Match>)
    requires i <= |s| && Leftmost(s, i, ms)
    ensures ms == VarMatches(s, i)
    decreases |s| - i
  {
    if i < |s| {
      match VarMatchAt(s, i) {
        case Some(m) =>
          assert ms != [] && ms[0].start == i;
          LeftmostUnique(s, m.end, ms[1..]);
        case None =>
          if ms != [] {
            assert i < ms[0].start;
          }
          LeftmostUnique(s, i + 1, ms);
      }
    }
  }

  /** The format keeps the literal text of the template and writes `%v`
      in place of each match. */
  lemma {:induction false} FormatIsSplice(s: string, i: nat)
    requires i <= |s|
    ensures Ordered(i, |s|, VarMatches(s, i))
    ensures Format(s, i) == Splice(s, i, VarMatches(s, i))
    decreases |s| - i
  {
    VarMatchesOrdered(s, i);
    if i < |s| {
      match VarMatchAt(s, i) {
        case Some(m) =>
          FormatIsSplice(s, m.end);
          assert s[i..i] == "";
        case None =>
          FormatIsSplice(s, i + 1);
          SpliceStep(s, i, VarMatches(s, i + 1));
      }
    }
  }

  /** A literal character in front of the matches is kept. */
  lemma SpliceStep(s: string, i: nat, ms: seq<Match>)
    requires i < |s| && Ordered(i + 1, |s|, ms)
    ensures Ordered(i, |s|, ms)
    ensures Splice(s, i, ms) == [s[i]] + Splice(s, i + 1, ms)
  {
    if ms == [] {
      assert s[i..] == [s[i]] + s[i + 1..];
    } else {
      var rest := Splice(s, ms[0].end, ms[1..]);
      assert s[i..ms[0].start] == [s[i]] + s[i + 1..ms[0].start];
      calc {
        Splice(s, i, ms);
        s[i..ms[0].start] + "%v" + rest;
        ([s[i]] + s[i + 1..ms[0].start]) + "%v" + rest;
        [s[i]] + (s[i + 1..ms[0].start] + "%v" + rest);
      }
    }
  }

  /** In a template without `%`, the format holds one `%` per match: the
      format's verbs and the accessor list agree in number. */
  lemma {:induction false} FormatCountsMatches(s: string, i: nat)
    requires i <= |s|
    requires '%' !in s
    ensures CountChar(Format(s, i), '%') == |VarMatches(s, i)|
    decreases |s| - i
  {
    if i < |s| {
      match VarMatchAt(s, i) {
        case Some(m) =>
          FormatCountsMatches(s, m.end);
          CountCharAppend("%v", Format(s, m.end), '%');
        case None =>
          FormatCountsMatches(s, i + 1);
          CountCharAppend([s[i]], Format(s, i + 1), '%');
      }
    }
  }

  /** The argument `in<fieldGetter(name)>` of each placeholder. */
  function ArgTokens(ms: seq<Match>): (ts: seq<string>)
    ensures |ts| == |ms| && forall k :: 0 <= k < |ms| ==> ts[k] == "in" + FieldGetter(ms[k].group)
  {
    if ms == [] then [] else ["in" + FieldGetter(ms[0].group)] + ArgTokens(ms[1..])
  }

  /** baseURL: one `in<fieldGetter(name)>` per placeholder, in template order. */
  method BaseURL(info: HttpInfo) returns (tokens: seq<string>)
    ensures tokens == ArgTokens(VarMatches(info.url, 0))
    ensures |tokens| == |VarMatches(info.url, 0)|
    ensures forall k :: 0 <= k < |tokens| ==>
      tokens[k] == "in" + FieldGetter(VarMatches(info.url, 0)[k].group)
  {
    tokens := [];
    var paths := VarMatches(info.url, 0);
    var i := 0;
    while i < |paths|
      invariant 0 <= i <= |paths|
      invariant |tokens| == i
      invariant forall k :: 0 <= k < i ==> tokens[k] == "in" + FieldGetter(paths[k].group)
    {
      var getter := BuildAccessor(paths[i].group, false);
      tokens := tokens + ["in" + getter];
      i := i + 1;
    }
    assert tokens == ArgTokens(paths);
  }

  /** The match of `{([^}]+)}` that starts at `i`: everything up to the
      next `}`, which may include `{`, `=`, `/` or `*`. */
  function BraceMatchAt(s: string, i: nat): (r: Option<Match>)
    requires i < |s|
    ensures r.Some? ==> r.value.start == i && i + 3 <= r.value.end <= |s|
    ensures r.Some? ==> s[i] == '{' && s[r.value.end - 1] == '}'
    ensures r.Some? ==> r.value.group == s[i + 1..r.value.end - 1] && '}' !in r.value.group
  {
    if s[i] != '{' then None
    else
      var k := CloseFrom(s, i + 1);
      if k == i + 1 || k == |s| then None
      else Some(Match(i, k + 1, s[i + 1..k]))
  }

  /** FindAllStringSubmatch with the second pattern, from position `i`. */
  function BraceMatches(s: string, i: nat): (ms: seq<Match>)
    requires i <= |s|
    ensures forall k :: 0 <= k < |ms| ==> i <= ms[k].start && ms[k].end <= |s|
    decreases |s| - i
  {
    if i == |s| then []
    else match BraceMatchAt(s, i)
      case Some(m) => [m] + BraceMatches(s, m.end)
      case None => BraceMatches(s, i + 1)
  }

  /** pathParams' parameter name: the text of the group before any `=`. */
  function ParamName(group: string): (r: string)
    ensures '=' !in r
    ensures exists rest :: group == r + rest && (rest == "" || rest[0] == '=')
  {
    var pieces := Split(group, "=");
    SplitCharPieces(group, '=');
    JoinSplit(group, "=");
    assert pieces[0] in pieces;
    if |pieces| == 1 then
      assert group == pieces[0] + "";
      pieces[0]
    else
      JoinCons(pieces[0], pieces[1..], "=");
      assert [pieces[0]] + pieces[1..] == pieces;
      assert group == pieces[0] + ("=" + Join(pieces[1..], "="));
      pieces[0]
  }

  /** The group names of a match sequence. */
  function Groups(ms: seq<Match>): (gs: seq<string>)
    ensures |gs| == |ms| && forall k :: 0 <= k < |ms| ==> gs[k] == ms[k].group
  {
    if ms == [] then [] else [ms[0].group] + Groups(ms[1..])
  }

  /** pathParams' names: the part before `=` of every group. */
  function ParamNames(ms: seq<Match>): (ns: seq<string>)
    ensures |ns| == |ms| && forall k :: 0 <= k < |ms| ==> ns[k] == ParamName(ms[k].group)
  {
    if ms == [] then [] else [ParamName(ms[0].group)] + ParamNames(ms[1..])
  }

  /** Every `{` opens a placeholder of the first pattern. */
  predicate WellFormed(s: string) {
    forall j :: 0 <= j < |s| && s[j] == '{' ==> VarMatchAt(s, j).Some?
  }

  /** Where the first pattern matches, the second matches the same text and
      its name before `=` is the first pattern's name. */
  lemma BraceAgreesWithVar(s: string, i: nat)
    requires i < |s| && VarMatchAt(s, i).Some?
    ensures BraceMatchAt(s, i).Some?
    ensures BraceMatchAt(s, i).value.end == VarMatchAt(s, i).value.end
    ensures ParamName(BraceMatchAt(s, i).value.group) == VarMatchAt(s, i).value.group
  {
    var m := VarMatchAt(s, i).value;
    var t := s[i..m.end];
    var name := m.group;
    var k := CloseFrom(s, i + 1);
    assert s[m.end - 1] == t[|t| - 1] == '}';
    forall q | i + 1 <= q < m.end - 1 ensures s[q] != '}' {
      assert s[q] == t[q - i];
      if q < i + 1 + |name| {
        assert t[q - i] == name[q - i - 1];
      }
    }
    if k < m.end - 1 {
      assert false;
    }
    assert k == m.end - 1;
    var g := s[i + 1..k];
    assert g[..|name|] == name;
    forall q | 0 <= q < |name| ensures name[q] != '=' {
      assert IsNameChar(name[q]);
    }
    assert '=' !in name;
    if |g| == |name| {
      assert g == name;
      AbsentChar(name, '=');
      SplitAbsent(name, "=");
    } else {
      assert g[|name|] == t[1 + |name|] == '=';
      assert g == name + ['='] + g[|name| + 1..];
      SplitAtFirstChar(name, '=', g[|name| + 1..]);
    }
  }

  /** Where the first pattern does not match, a well-formed template has no
      `{`, so the second pattern does not match either. */
  lemma BraceNoneWhereVarNone(s: string, i: nat)
    requires i < |s| && WellFormed(s) && VarMatchAt(s, i).None?
    ensures BraceMatchAt(s, i).None?
  {
  }

  /** On a well-formed template both patterns give the same parameter
      names in the same order. */
  lemma {:induction false} ScannersAgree(s: string, i: nat)
    requires i <= |s| && WellFormed(s)
    ensures ParamNames(BraceMatches(s, i)) == Groups(VarMatches(s, i))
    decreases |s| - i
  {
    if i < |s| {
      if VarMatchAt(s, i).Some? {
        BraceAgreesWithVar(s, i);
        ScannersAgree(s, VarMatchAt(s, i).value.end);
      } else {
        BraceNoneWhereVarNone(s, i);
        ScannersAgree(s, i + 1);
      }
    }
  }

  /** The two patterns disagree on a placeholder whose name holds a
      character outside `[a-zA-Z0-9_.]`: the first skips it, the second
      takes it whole. */
  lemma ScannersDisagree(s: string)
    requires s == "{a/b}"
    ensures VarMatches(s, 0) == []
    ensures BraceMatches(s, 0) == [Match(0, 5, "a/b")]
  {
    assert NameEnd(s, 2) == 2;
    assert NameEnd(s, 1) == 2;
    assert VarMatchAt(s, 0).None?;
    assert forall j :: 1 <= j < 5 ==> s[j] != '{';
    assert VarMatches(s, 4) == [];
    assert VarMatches(s, 3) == [];
    assert VarMatches(s, 2) == [];
    assert VarMatches(s, 1) == [];
    assert CloseFrom(s, 1) == 4 by {
      assert CloseFrom(s, 4) == 4;
      assert CloseFrom(s, 3) == 4;
      assert CloseFrom(s, 2) == 4;
    }
    assert s[1..4] == "a/b";
    assert BraceMatchAt(s, 0) == Some(Match(0, 5, "a/b"));
  }
}
