/** The few functions of Go's `strings` package that the generator relies on:
    `Index`, `Split`, `Join`, `ReplaceAll`, ASCII case mapping and the
    byte-wise ordering that `sort.Strings` uses. */
module Strings {

  /** `sep` occurs in `s` starting at position `j`. */
  predicate OccursAt(s: string, sep: string, j: nat) {
    j + |sep| <= |s| && s[j..j + |sep|] == sep
  }

  /** `sep` occurs nowhere in `s`. */
  predicate Absent(s: string, sep: string) {
    forall j: nat :: j <= |s| ==> !OccursAt(s, sep, j)
  }

  /** The first occurrence of `sep` in `s` at or after `from`, or -1. */
  function IndexFrom(s: string, sep: string, from: nat): (r: int)
    requires |sep| > 0
    ensures r == -1 || (from <= r && OccursAt(s, sep, r))
    ensures r == -1 ==> forall j: nat :: from <= j ==> !OccursAt(s, sep, j)
    ensures r >= 0 ==> forall j: nat :: from <= j < r ==> !OccursAt(s, sep, j)
    decreases |s| - from
  {
    if from + |sep| > |s| then -1
    else if OccursAt(s, sep, from) then from
    else IndexFrom(s, sep, from + 1)
  }

  /** strings.Index: the first position of `sep` in `s`, or -1. */
  function Index(s: string, sep: string): (r: int)
    requires |sep| > 0
    ensures r == -1 <==> Absent(s, sep)
    ensures r >= 0 ==> OccursAt(s, sep, r) && forall j: nat :: j < r ==> !OccursAt(s, sep, j)
  {
    IndexFrom(s, sep, 0)
  }

  /** strings.Split for a non-empty separator: the pieces between the
      successive left-most occurrences of `sep`. */
  function Split(s: string, sep: string): (r: seq<string>)
    requires |sep| > 0
    ensures |r| >= 1
    decreases |s|
  {
    var m := Index(s, sep);
    if m < 0 then [s] else [s[..m]] + Split(s[m + |sep|..], sep)
  }

  /** strings.Join. */
  function Join(parts: seq<string>, sep: string): string {
    if |parts| == 0 then ""
    else if |parts| == 1 then parts[0]
    else parts[0] + sep + Join(parts[1..], sep)
  }

  /** strings.ReplaceAll for a non-empty `target`: every non-overlapping
      left-to-right occurrence of `target` is replaced by `repl`. */
  function ReplaceAll(s: string, target: string, repl: string): string
    requires |target| > 0
  {
    Join(Split(s, target), repl)
  }

  /** The last element of a non-empty sequence (`sp[len(sp)-1]`). */
  function Last<T>(xs: seq<T>): T
    requires |xs| > 0
  {
    xs[|xs| - 1]
  }

  lemma JoinCons(a: string, rest: seq<string>, sep: string)
    requires |rest| > 0
    ensures Join([a] + rest, sep) == a + sep + Join(rest, sep)
  {
    assert ([a] + rest)[1..] == rest;
  }

  /** Joining one more part at the end appends the separator and the part. */
  lemma {:induction false} JoinLast(a: seq<string>, x: string, sep: string)
    requires |a| >= 1
    ensures Join(a + [x], sep) == Join(a, sep) + sep + x
    decreases |a|
  {
    if |a| == 1 {
      assert (a + [x])[1..] == [x];
    } else {
      assert (a + [x])[1..] == a[1..] + [x];
      JoinLast(a[1..], x, sep);
      JoinCons(a[0], a[1..] + [x], sep);
      assert a + [x] == [a[0]] + (a[1..] + [x]);
    }
  }

  /** Where the separator occurs, the first piece ends at it. */
  lemma SplitStep(s: string, sep: string)
    requires |sep| > 0 && Index(s, sep) >= 0
    ensures Split(s, sep) == [s[..Index(s, sep)]] + Split(s[Index(s, sep) + |sep|..], sep)
  {
  }

  /** Splitting and joining with the same separator gives back the input. */
  lemma {:induction false} JoinSplit(s: string, sep: string)
    requires |sep| > 0
    ensures Join(Split(s, sep), sep) == s
    decreases |s|
  {
    var m := Index(s, sep);
    if m >= 0 {
      var rest := s[m + |sep|..];
      JoinSplit(rest, sep);
      SplitStep(s, sep);
      JoinSplitStep(s, sep, m, rest, Split(rest, sep));
    }
  }

  lemma JoinSplitStep(s: string, sep: string, m: nat, rest: string, pieces: seq<string>)
    requires OccursAt(s, sep, m) && rest == s[m + |sep|..]
    requires |pieces| >= 1 && Join(pieces, sep) == rest
    ensures Join([s[..m]] + pieces, sep) == s
  {
    JoinCons(s[..m], pieces, sep);
    Recompose(s, m, m + |sep|);
  }

  lemma Recompose<T>(s: seq<T>, i: nat, j: nat)
    requires i <= j <= |s|
    ensures s[..i] + s[i..j] + s[j..] == s
  {
  }

  /** No piece of a split holds the separator. */
  lemma {:induction false} SplitPiecesAbsent(s: string, sep: string)
    requires |sep| > 0
    ensures forall p :: p in Split(s, sep) ==> Absent(p, sep)
    decreases |s|
  {
    var m := Index(s, sep);
    if m >= 0 {
      SplitPiecesAbsent(s[m + |sep|..], sep);
      forall j: nat ensures !OccursAt(s[..m], sep, j) {
        if OccursAt(s[..m], sep, j) {
          assert s[..m][j..j + |sep|] == s[j..j + |sep|];
          assert OccursAt(s, sep, j);
        }
      }
    }
  }

  /** A character absent from a string is absent from its pieces. */
  lemma {:induction false} SplitAvoids(s: string, sep: string, c: char)
    requires |sep| > 0 && c !in s
    ensures forall p :: p in Split(s, sep) ==> c !in p
    decreases |s|
  {
    var m := Index(s, sep);
    if m >= 0 {
      assert forall ch :: ch in s[m + |sep|..] ==> ch in s;
      SplitAvoids(s[m + |sep|..], sep, c);
      assert forall ch :: ch in s[..m] ==> ch in s;
      assert Split(s, sep) == [s[..m]] + Split(s[m + |sep|..], sep);
    }
  }

  /** A string without the separator splits into itself alone. */
  lemma SplitAbsent(s: string, sep: string)
    requires |sep| > 0 && Absent(s, sep)
    ensures Split(s, sep) == [s]
  {
  }

  /** A one-character separator occurs exactly where that character is. */
  lemma OccursAtChar(s: string, c: char, j: nat)
    ensures OccursAt(s, [c], j) <==> j < |s| && s[j] == c
  {
    if j < |s| && s[j] == c {
      assert s[j..j + 1] == [c];
    }
  }

  lemma AbsentChar(s: string, c: char)
    ensures Absent(s, [c]) <==> c !in s
  {
    if c in s {
      var j :| 0 <= j < |s| && s[j] == c;
      OccursAtChar(s, c, j);
    }
    if !Absent(s, [c]) {
      var j: nat :| OccursAt(s, [c], j);
      OccursAtChar(s, c, j);
    }
  }

  /** The first piece of `a + [c] + b` is `a` when `a` holds no `c`. */
  lemma SplitAtFirstChar(a: string, c: char, b: string)
    requires c !in a
    ensures Split(a + [c] + b, [c]) == [a] + Split(b, [c])
  {
    var s := a + [c] + b;
    OccursAtChar(s, c, |a|);
    var m := Index(s, [c]);
    assert m == |a|;
    assert s[..m] == a;
    assert s[m + 1..] == b;
  }

  /** For a one-character separator that no part holds, splitting undoes
      joining. */
  lemma {:induction false} SplitJoin(parts: seq<string>, c: char)
    requires |parts| >= 1
    requires forall p :: p in parts ==> c !in p
    ensures Split(Join(parts, [c]), [c]) == parts
    decreases |parts|
  {
    if |parts| == 1 {
      AbsentChar(parts[0], c);
    } else {
      SplitJoin(parts[1..], c);
      SplitAtFirstChar(parts[0], c, Join(parts[1..], [c]));
      assert parts == [parts[0]] + parts[1..];
    }
  }

  /** No piece of a split on a single character holds that character. */
  lemma SplitCharPieces(s: string, c: char)
    ensures forall p :: p in Split(s, [c]) ==> c !in p
  {
    SplitPiecesAbsent(s, [c]);
    forall p | p in Split(s, [c]) ensures c !in p {
      AbsentChar(p, c);
    }
  }

  /** Joining pieces that avoid a character, with a separator that avoids
      it, gives a string that avoids it. */
  lemma {:induction false} JoinAvoids(parts: seq<string>, sep: string, c: char)
    requires forall p :: p in parts ==> c !in p
    requires c !in sep
    ensures c !in Join(parts, sep)
    decreases |parts|
  {
    if |parts| >= 1 {
      assert parts[0] in parts;
    }
    if |parts| > 1 {
      assert forall p :: p in parts[1..] ==> p in parts;
      JoinAvoids(parts[1..], sep, c);
    }
  }

  /** The last piece of a split on a character is what follows the last
      occurrence of that character. */
  lemma {:induction false} SplitLastPiece(a: string, c: char, b: string)
    requires c !in b
    ensures Last(Split(a + [c] + b, [c])) == b
    decreases |a|
  {
    var s := a + [c] + b;
    OccursAtChar(s, c, |a|);
    IndexAtMost(s, [c], |a|);
    var j := Index(s, [c]);
    SplitStep(s, [c]);
    LastCons(s[..j], Split(s[j + 1..], [c]));
    if j == |a| {
      assert s[j + 1..] == b;
      AbsentChar(b, c);
      SplitAbsent(b, [c]);
    } else {
      assert s[j + 1..] == a[j + 1..] + [c] + b;
      SplitLastPiece(a[j + 1..], c, b);
    }
  }

  lemma LastCons<T>(x: T, ys: seq<T>)
    requires |ys| >= 1
    ensures Last([x] + ys) == Last(ys)
  {
  }

  /** An occurrence at `p` puts the first occurrence at or before `p`. */
  lemma IndexAtMost(s: string, sep: string, p: nat)
    requires |sep| > 0 && OccursAt(s, sep, p)
    ensures 0 <= Index(s, sep) <= p
  {
    assert !Absent(s, sep);
  }

  /** Removing every occurrence of `t` from `base + t`, when the only
      occurrence is the final one, leaves `base`. */
  lemma ReplaceAtEnd(base: string, t: string)
    requires |t| > 0
    requires forall j: nat :: j < |base| ==> !OccursAt(base + t, t, j)
    ensures ReplaceAll(base + t, t, "") == base
  {
    var s := base + t;
    assert s[|base|..|base| + |t|] == t;
    assert OccursAt(s, t, |base|);
    assert !Absent(s, t);
    var r := Index(s, t);
    assert r >= 0;
    assert r <= |base|;
    assert r == |base|;
    assert s[|base| + |t|..] == "";
    assert Split("", t) == [""];
    assert s[..|base|] == base;
    assert Split(s, t) == [base] + Split(s[|base| + |t|..], t);
    assert Split(s, t) == [base, ""];
    assert Join([base, ""], "") == base + "" + "";
  }

  /** Number of occurrences of `c` in `s`. */
  function CountChar(s: string, c: char): nat {
    if s == [] then 0 else (if s[0] == c then 1 else 0) + CountChar(s[1..], c)
  }

  lemma CountCharAppend(a: string, b: string, c: char)
    ensures CountChar(a + b, c) == CountChar(a, c) + CountChar(b, c)
  {
    if a != [] {
      assert (a + b)[1..] == a[1..] + b;
      CountCharAppend(a[1..], b, c);
    } else {
      assert a + b == b;
    }
  }

  lemma CountCharAbsent(s: string, c: char)
    requires c !in s
    ensures CountChar(s, c) == 0
  {
  }

  predicate IsAsciiDigit(c: char) { '0' <= c <= '9' }

  /** unicode.ToUpper restricted to ASCII: other characters are unchanged. */
  function UpperChar(c: char): (r: char)
    ensures 'a' <= c <= 'z' ==> 'A' <= r <= 'Z'
    ensures !('a' <= c <= 'z') ==> r == c
  {
    if 'a' <= c <= 'z' then (c as int - 32) as char else c
  }

  /** unicode.ToLower restricted to ASCII: other characters are unchanged. */
  function LowerChar(c: char): (r: char)
    ensures 'A' <= c <= 'Z' ==> 'a' <= r <= 'z'
    ensures !('A' <= c <= 'Z') ==> r == c
  {
    if 'A' <= c <= 'Z' then (c as int + 32) as char else c
  }

  /** Case mapping never turns any other character into `c` when `c` is
      not a letter. */
  lemma CaseMapKeepsNonLetters(c: char, d: char)
    requires !('a' <= d <= 'z') && !('A' <= d <= 'Z') && c != d
    ensures UpperChar(c) != d && LowerChar(c) != d
  {
  }

  /** strings.ToUpper restricted to ASCII. */
  function ToUpper(s: string): (r: string)
    ensures |r| == |s|
    ensures forall i :: 0 <= i < |s| ==> r[i] == UpperChar(s[i])
  {
    if s == [] then [] else [UpperChar(s[0])] + ToUpper(s[1..])
  }

  /** Go's `<` on strings: byte-wise lexicographic order, which for
      Unicode scalar values is code-point order. */
  predicate Less(a: string, b: string)
    decreases |a|
  {
    if |a| == 0 then |b| > 0
    else if |b| == 0 then false
    else if a[0] != b[0] then a[0] < b[0]
    else Less(a[1..], b[1..])
  }

  lemma LessIrreflexive(a: string)
    ensures !Less(a, a)
  {
  }

  lemma {:induction false} LessTransitive(a: string, b: string, c: string)
    requires Less(a, b) && Less(b, c)
    ensures Less(a, c)
    decreases |a|
  {
    if |a| > 0 && |b| > 0 && |c| > 0 && a[0] == b[0] && b[0] == c[0] {
      LessTransitive(a[1..], b[1..], c[1..]);
    }
  }

  lemma {:induction false} LessTotal(a: string, b: string)
    requires a != b
    ensures Less(a, b) || Less(b, a)
    decreases |a|
  {
    if |a| > 0 && |b| > 0 && a[0] == b[0] {
      assert a == [a[0]] + a[1..] && b == [b[0]] + b[1..];
      LessTotal(a[1..], b[1..]);
    }
  }

  lemma {:induction false} LessAsymmetric(a: string, b: string)
    requires Less(a, b)
    ensures !Less(b, a)
    decreases |a|
  {
    if |a| > 0 && |b| > 0 && a[0] == b[0] {
      LessAsymmetric(a[1..], b[1..]);
    }
  }
}
