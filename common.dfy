/** Value helpers shared by the modules of the TTS editor model: JavaScript's
    optional values and thrown errors, and the string operations the editor
    relies on (trim, whitespace removal, lower-casing, substring search,
    split and join, de-duplication in first-appearance order). */
module Common {

  datatype Option<T> = None | Some(value: T)

  /** A value, or the error a JavaScript function would have thrown. */
  datatype Result<T, E> = Ok(value: T) | Err(error: E)

  // ---------------------------------------------------------------------------
  // Whitespace, trim and whitespace removal
  // ---------------------------------------------------------------------------

  /** The code points ECMAScript counts as WhiteSpace or LineTerminator: what
      String.prototype.trim strips and what the regular expression class \s
      matches. */
  predicate IsSpace(c: char) {
    c == '\t' || c == '\n' || c == '\U{000B}' || c == '\U{000C}' || c == '\r' || c == ' '
    || c == '\U{00A0}' || c == '\U{1680}' || ('\U{2000}' <= c <= '\U{200A}')
    || c == '\U{2028}' || c == '\U{2029}' || c == '\U{202F}' || c == '\U{205F}'
    || c == '\U{3000}' || c == '\U{FEFF}'
  }

  predicate IsBlank(s: string) {
    forall i | 0 <= i < |s| :: IsSpace(s[i])
  }

  /** Leading whitespace removed. */
  function TrimStart(s: string): (r: string)
    ensures |r| <= |s|
  {
    if s != [] && IsSpace(s[0]) then TrimStart(s[1..]) else s
  }

  /** TrimStart keeps a suffix that starts with a non-space character, and
      drops whitespace only. */
  lemma {:induction false} TrimStartShape(s: string)
    ensures var r := TrimStart(s);
      r == s[|s| - |r|..] && (r == [] || !IsSpace(r[0])) && IsBlank(s[..|s| - |r|])
  {
    if s != [] && IsSpace(s[0]) {
      TrimStartShape(s[1..]);
      var r := TrimStart(s);
      assert s[1..][..|s| - 1 - |r|] == s[1..|s| - |r|];
    }
  }

  /** Trailing whitespace removed. */
  function TrimEnd(s: string): (r: string)
    ensures |r| <= |s|
  {
    if s != [] && IsSpace(s[|s| - 1]) then TrimEnd(s[..|s| - 1]) else s
  }

  /** TrimEnd keeps a prefix that ends with a non-space character, and drops
      whitespace only. */
  lemma {:induction false} TrimEndShape(s: string)
    ensures var r := TrimEnd(s);
      r == s[..|r|] && (r == [] || !IsSpace(r[|r| - 1])) && IsBlank(s[|r|..])
  {
    if s != [] && IsSpace(s[|s| - 1]) {
      TrimEndShape(s[..|s| - 1]);
      var r := TrimEnd(s);
      assert s[..|s| - 1][|r|..] == s[|r|..|s| - 1];
    }
  }

  /** String.prototype.trim. */
  function Trim(s: string): string {
    TrimEnd(TrimStart(s))
  }

  lemma TrimShape(s: string)
    ensures var a := TrimStart(s); var t := TrimEnd(a);
      a == s[|s| - |a|..] && (a == [] || !IsSpace(a[0])) && IsBlank(s[..|s| - |a|])
      && t == a[..|t|] && (t == [] || !IsSpace(t[|t| - 1])) && IsBlank(a[|t|..])
  {
    TrimStartShape(s);
    TrimEndShape(TrimStart(s));
  }

  /** A string trims to nothing exactly when it is all whitespace. */
  lemma TrimEmptyIffBlank(s: string)
    ensures Trim(s) == [] <==> IsBlank(s)
  {
    TrimShape(s);
    var a := TrimStart(s);
    if Trim(s) == [] {
      assert IsBlank(a[|Trim(s)|..]) && a[|Trim(s)|..] == a;
      assert a == [];
      assert s[..|s| - |a|] == s;
    } else {
      assert !IsSpace(Trim(s)[0]);
      assert a[0] == Trim(s)[0];
      assert s[|s| - |a|] == a[0];
    }
  }

  /** What trim keeps has no whitespace at either end, so trimming again changes nothing. */
  lemma TrimIdempotent(s: string)
    ensures Trim(Trim(s)) == Trim(s)
  {
    TrimShape(s);
    var t := Trim(s);
    if t != [] {
      assert !IsSpace(t[|t| - 1]);
      assert TrimStart(s)[0] == t[0];
      assert TrimStart(t) == t;
    }
  }

  /** s with every whitespace character removed (s.replace(/\s/g, '')). */
  function RemoveSpaces(s: string): (r: string)
    ensures |r| <= |s|
  {
    if s == [] then []
    else if IsSpace(s[0]) then RemoveSpaces(s[1..])
    else [s[0]] + RemoveSpaces(s[1..])
  }

  /** No whitespace is left. */
  lemma {:induction false} RemoveSpacesNoSpace(s: string)
    ensures forall i | 0 <= i < |RemoveSpaces(s)| :: !IsSpace(RemoveSpaces(s)[i])
  {
    if s != [] {
      RemoveSpacesNoSpace(s[1..]);
    }
  }

  lemma {:induction false} RemoveSpacesConcat(a: string, b: string)
    ensures RemoveSpaces(a + b) == RemoveSpaces(a) + RemoveSpaces(b)
  {
    if a != [] {
      assert (a + b)[0] == a[0];
      assert (a + b)[1..] == a[1..] + b;
      RemoveSpacesConcat(a[1..], b);
    } else {
      assert a + b == b;
    }
  }

  /** Appending a text to two texts with the same non-whitespace
      characters keeps them alike. */
  lemma AppendSameContent(a: string, b: string, c: string, p: string)
    requires RemoveSpaces(a + b) == RemoveSpaces(c)
    ensures RemoveSpaces(a + (b + p)) == RemoveSpaces(c + p)
  {
    assert a + (b + p) == (a + b) + p;
    RemoveSpacesConcat(a + b, p);
    RemoveSpacesConcat(c, p);
  }

  lemma {:induction false} RemoveSpacesBlank(s: string)
    requires IsBlank(s)
    ensures RemoveSpaces(s) == []
  {
    if s != [] {
      RemoveSpacesBlank(s[1..]);
    }
  }

  /** Trimming removes whitespace only. */
  lemma TrimKeepsContent(s: string)
    ensures RemoveSpaces(Trim(s)) == RemoveSpaces(s)
  {
    TrimShape(s);
    var a := TrimStart(s);
    var t := TrimEnd(a);
    assert s == s[..|s| - |a|] + a;
    RemoveSpacesConcat(s[..|s| - |a|], a);
    RemoveSpacesBlank(s[..|s| - |a|]);
    assert a == t + a[|t|..];
    RemoveSpacesConcat(t, a[|t|..]);
    RemoveSpacesBlank(a[|t|..]);
  }

  /** Trim keeps a contiguous part of s: what lies before it and after it
      is whitespace. */
  lemma TrimIsInfix(s: string)
    ensures var k := |s| - |TrimStart(s)|;
      k + |Trim(s)| <= |s| && Trim(s) == s[k..k + |Trim(s)|]
      && IsBlank(s[..k]) && IsBlank(s[k + |Trim(s)|..])
  {
    TrimShape(s);
    var a := TrimStart(s);
    var k := |s| - |a|;
    var t := Trim(s);
    assert s[k..] == a;
    assert a[..|t|] == t;
    assert s[k..k + |t|] == a[..|t|];
    assert s[k + |t|..] == a[|t|..];
  }

  /** A string that ends in a non-space character trims to a string that
      ends in that character. */
  lemma TrimKeepsLast(s: string)
    requires s != [] && !IsSpace(s[|s| - 1])
    ensures Trim(s) != [] && Trim(s)[|Trim(s)| - 1] == s[|s| - 1]
    ensures |s| - |TrimStart(s)| + |Trim(s)| == |s|
  {
    TrimShape(s);
    var a := TrimStart(s);
    assert a[|a| - 1] == s[|s| - 1];
    assert TrimEnd(a) == a;
  }

  // ---------------------------------------------------------------------------
  // Concatenation of a list of strings
  // ---------------------------------------------------------------------------

  /** parts.join(''). */
  function Concat(parts: seq<string>): string {
    if parts == [] then "" else Concat(parts[..|parts| - 1]) + parts[|parts| - 1]
  }

  lemma ConcatAppend(parts: seq<string>, x: string)
    ensures Concat(parts + [x]) == Concat(parts) + x
  {
    assert (parts + [x])[..|parts|] == parts;
  }

  lemma {:induction false} ConcatPrepend(x: string, parts: seq<string>)
    ensures Concat([x] + parts) == x + Concat(parts)
    decreases |parts|
  {
    if parts == [] {
      assert [x] + parts == [x];
      assert [x][..0] == [];
    } else {
      var init := parts[..|parts| - 1];
      ConcatPrepend(x, init);
      assert ([x] + parts)[..|parts|] == [x] + init;
      assert ([x] + parts)[|parts|] == parts[|parts| - 1];
    }
  }

  // ---------------------------------------------------------------------------
  // Lower-casing, prefixes, substrings
  // ---------------------------------------------------------------------------

  function LowerChar(c: char): char {
    if 'A' <= c <= 'Z' then (c as int + 32) as char else c
  }

  /** String.prototype.toLowerCase on the ASCII letters. */
  function Lower(s: string): (r: string)
    ensures |r| == |s|
    ensures forall i | 0 <= i < |s| :: r[i] == LowerChar(s[i])
  {
    if s == [] then [] else [LowerChar(s[0])] + Lower(s[1..])
  }

  predicate StartsWith(s: string, prefix: string) {
    |prefix| <= |s| && s[..|prefix|] == prefix
  }

  /** String.prototype.includes. */
  predicate Contains(s: string, sub: string)
    decreases |s|
  {
    StartsWith(s, sub) || (s != [] && Contains(s[1..], sub))
  }

  /** sub occurs in s starting at position k. */
  predicate OccursAt(s: string, sub: string, k: int) {
    0 <= k && k + |sub| <= |s| && s[k..k + |sub|] == sub
  }

  /** Contains means sub occurs at some position of s. */
  lemma {:induction false} ContainsIffOccurs(s: string, sub: string)
    ensures Contains(s, sub) <==> exists k :: OccursAt(s, sub, k)
    decreases |s|
  {
    if StartsWith(s, sub) {
      assert OccursAt(s, sub, 0);
    } else if s != [] {
      ContainsIffOccurs(s[1..], sub);
      if Contains(s[1..], sub) {
        var k :| OccursAt(s[1..], sub, k);
        assert s[1..][k..k + |sub|] == s[k + 1..k + 1 + |sub|];
        assert OccursAt(s, sub, k + 1);
      }
      if exists k :: OccursAt(s, sub, k) {
        var k :| OccursAt(s, sub, k);
        assert k != 0;
        assert s[1..][k - 1..k - 1 + |sub|] == s[k..k + |sub|];
        assert OccursAt(s[1..], sub, k - 1);
      }
    }
  }

  // ---------------------------------------------------------------------------
  // Split and join on a one-character separator
  // ---------------------------------------------------------------------------

  /** String.prototype.split with a one-character separator. */
  function Split(s: string, sep: char): (r: seq<string>)
    ensures |r| >= 1
    ensures forall i | 0 <= i < |r| :: sep !in r[i]
    decreases |s|
  {
    if s == [] then [""]
    else
      var rest := Split(s[1..], sep);
      if s[0] == sep then [""] + rest else [[s[0]] + rest[0]] + rest[1..]
  }

  /** Array.prototype.join. */
  function Join(parts: seq<string>, sep: string): string
    decreases |parts|
  {
    if parts == [] then ""
    else if |parts| == 1 then parts[0]
    else parts[0] + sep + Join(parts[1..], sep)
  }

  /** Joining the pieces of a split gives back the original string. */
  lemma {:induction false} JoinSplit(s: string, sep: char)
    ensures Join(Split(s, sep), [sep]) == s
    decreases |s|
  {
    if s != [] {
      var rest := Split(s[1..], sep);
      JoinSplit(s[1..], sep);
      if s[0] == sep {
        assert Split(s, sep) == [""] + rest;
        assert ([""] + rest)[1..] == rest;
      } else {
        var r := Split(s, sep);
        assert r == [[s[0]] + rest[0]] + rest[1..];
        if |rest| == 1 {
          assert r == [[s[0]] + rest[0]];
        } else {
          assert r[1..] == rest[1..];
          assert Join(rest, [sep]) == rest[0] + [sep] + Join(rest[1..], [sep]);
        }
      }
    }
  }

  /** Splitting a join of separator-free pieces gives back the pieces. */
  lemma {:induction false} SplitJoin(parts: seq<string>, sep: char)
    requires |parts| >= 1
    requires forall i | 0 <= i < |parts| :: sep !in parts[i]
    ensures Split(Join(parts, [sep]), sep) == parts
    decreases |parts|, |parts[0]|
  {
    if parts[0] == [] {
      if |parts| > 1 {
        SplitJoin(parts[1..], sep);
        assert Join(parts, [sep]) == [sep] + Join(parts[1..], [sep]);
        assert ([sep] + Join(parts[1..], [sep]))[1..] == Join(parts[1..], [sep]);
        assert [""] + parts[1..] == parts;
      }
    } else {
      var p := parts[0];
      var tail := [p[1..]] + parts[1..];
      assert tail[1..] == parts[1..];
      assert forall i | 0 <= i < |tail| :: sep !in tail[i] by {
        assert forall c | c in p[1..] :: c in p;
      }
      SplitJoin(tail, sep);
      var j := Join(parts, [sep]);
      assert j == [p[0]] + Join(tail, [sep]) by {
        if |parts| == 1 {
          assert [p[0]] + p[1..] == p;
        } else {
          assert Join(tail, [sep]) == p[1..] + [sep] + Join(parts[1..], [sep]);
          assert [p[0]] + p[1..] == p;
        }
      }
      assert j[1..] == Join(tail, [sep]);
      assert p[0] != sep by { assert p[0] in p; }
      assert p == [p[0]] + p[1..];
      assert parts == [p] + parts[1..];
    }
  }

  // ---------------------------------------------------------------------------
  // De-duplication in first-appearance order (a Map's or a Set's key order)
  // ---------------------------------------------------------------------------

  predicate NoDuplicates<T(==)>(s: seq<T>) {
    forall i, j | 0 <= i < j < |s| :: s[i] != s[j]
  }

  /** The distinct elements of s, in the order of their first appearance. */
  function Distinct<T(==)>(s: seq<T>): (r: seq<T>)
    ensures forall x | x in r :: x in s
    ensures forall x | x in s :: x in r
    ensures |r| <= |s|
  {
    if s == [] then []
    else
      var d := Distinct(s[..|s| - 1]);
      assert s == s[..|s| - 1] + [s[|s| - 1]];
      if s[|s| - 1] in d then d else d + [s[|s| - 1]]
  }

  /** Distinct grows by an element only when it is new. */
  lemma DistinctSnoc<T>(s: seq<T>, x: T)
    ensures Distinct(s + [x]) == if x in Distinct(s) then Distinct(s) else Distinct(s) + [x]
  {
    assert (s + [x])[..|s|] == s;
  }

  /** Distinct lists each element once. */
  lemma {:induction false} DistinctNoDuplicates<T>(s: seq<T>)
    ensures NoDuplicates(Distinct(s))
  {
    if s != [] {
      DistinctNoDuplicates(s[..|s| - 1]);
    }
  }

  /** Position of the first occurrence of x in s. */
  function IndexOf<T(==)>(s: seq<T>, x: T): (k: nat)
    requires x in s
    ensures k < |s| && s[k] == x
    ensures forall j | 0 <= j < k :: s[j] != x
  {
    if s[0] == x then 0 else 1 + IndexOf(s[1..], x)
  }

  lemma {:induction false} IndexOfPrefix<T>(s: seq<T>, n: nat, x: T)
    requires n <= |s| && x in s[..n]
    ensures x in s && IndexOf(s, x) == IndexOf(s[..n], x)
  {
    assert s[..n][0] == s[0];
    if s[0] != x {
      assert s[..n][1..] == s[1..][..n - 1];
      IndexOfPrefix(s[1..], n - 1, x);
    }
  }

  /** Distinct lists the elements in the order of their first appearance in s. */
  lemma {:induction false} DistinctOrder<T>(s: seq<T>)
    ensures forall i, j | 0 <= i < j < |Distinct(s)| :: IndexOf(s, Distinct(s)[i]) < IndexOf(s, Distinct(s)[j])
  {
    if s != [] {
      var p := s[..|s| - 1];
      DistinctOrder(p);
      var d := Distinct(p);
      var last := s[|s| - 1];
      forall x | x in d ensures IndexOf(s, x) == IndexOf(p, x) && IndexOf(s, x) < |p| {
        IndexOfPrefix(s, |p|, x);
      }
      if last !in d {
        assert last !in p;
        assert IndexOf(s, last) == |p|;
      }
    }
  }

  // ---------------------------------------------------------------------------
  // Searching a list
  // ---------------------------------------------------------------------------

  /** Array.prototype.find: the first element p holds for, if any. */
  function FindFirst<T>(xs: seq<T>, p: T -> bool): (r: Option<T>)
    ensures r.None? <==> forall i | 0 <= i < |xs| :: !p(xs[i])
    ensures r.Some? ==> r.value in xs && p(r.value)
  {
    if xs == [] then None else if p(xs[0]) then Some(xs[0]) else FindFirst(xs[1..], p)
  }

  /** find returns the element at the first position p holds for. */
  lemma {:induction false} FindFirstAt<T>(xs: seq<T>, p: T -> bool, i: nat)
    requires i < |xs| && p(xs[i]) && forall j | 0 <= j < i :: !p(xs[j])
    ensures FindFirst(xs, p) == Some(xs[i])
  {
    if i > 0 {
      assert !p(xs[0]);
      FindFirstAt(xs[1..], p, i - 1);
    }
  }

  /** Array.prototype.filter: the elements p holds for, in order. */
  function Filter<T>(xs: seq<T>, p: T -> bool): (r: seq<T>)
    ensures |r| <= |xs|
  {
    if xs == [] then [] else (if p(xs[0]) then [xs[0]] else []) + Filter(xs[1..], p)
  }

  /** An element is kept exactly when it is in the list and p holds for it. */
  lemma {:induction false} FilterMember<T>(xs: seq<T>, p: T -> bool, x: T)
    ensures x in Filter(xs, p) <==> x in xs && p(x)
  {
    if xs != [] {
      FilterMember(xs[1..], p, x);
      assert xs == [xs[0]] + xs[1..];
    }
  }

  /** filter keeps the order: filtering a concatenation concatenates. */
  lemma {:induction false} FilterConcat<T>(a: seq<T>, b: seq<T>, p: T -> bool)
    ensures Filter(a + b, p) == Filter(a, p) + Filter(b, p)
  {
    if a != [] {
      assert (a + b)[1..] == a[1..] + b;
      FilterConcat(a[1..], b, p);
    } else {
      assert a + b == b;
    }
  }

  /** Nothing is kept exactly when p holds for no element. */
  lemma {:induction false} FilterEmpty<T>(xs: seq<T>, p: T -> bool)
    ensures Filter(xs, p) == [] <==> forall i | 0 <= i < |xs| :: !p(xs[i])
  {
    if xs != [] {
      FilterEmpty(xs[1..], p);
      assert forall i | 1 <= i < |xs| :: xs[i] == xs[1..][i - 1];
    }
  }

  /** What filter keeps and what it drops make up the list. */
  lemma {:induction false} FilterPartition<T>(xs: seq<T>, p: T -> bool, q: T -> bool)
    requires forall i | 0 <= i < |xs| :: q(xs[i]) == !p(xs[i])
    ensures multiset(Filter(xs, p)) + multiset(Filter(xs, q)) == multiset(xs)
  {
    if xs != [] {
      var rest := xs[1..];
      FilterPartitionStep(xs, p, q);
      FilterPartitionRest(xs, p, q);
      FilterPartition(rest, p, q);
    }
  }

  lemma FilterPartitionRest<T>(xs: seq<T>, p: T -> bool, q: T -> bool)
    requires xs != []
    requires forall i | 0 <= i < |xs| :: q(xs[i]) == !p(xs[i])
    ensures forall i | 0 <= i < |xs[1..]| :: q(xs[1..][i]) == !p(xs[1..][i])
  {
    assert forall i | 0 <= i < |xs[1..]| :: xs[1..][i] == xs[i + 1];
  }

  lemma FilterPartitionStep<T>(xs: seq<T>, p: T -> bool, q: T -> bool)
    requires xs != [] && q(xs[0]) == !p(xs[0])
    ensures multiset(Filter(xs, p)) + multiset(Filter(xs, q)) == multiset{xs[0]} + multiset(Filter(xs[1..], p)) + multiset(Filter(xs[1..], q))
    ensures multiset(xs) == multiset{xs[0]} + multiset(xs[1..])
  {
    assert xs == [xs[0]] + xs[1..];
  }

  /** A list of elements p holds for is its own filter. */
  lemma {:induction false} FilterAll<T>(xs: seq<T>, p: T -> bool)
    requires forall i | 0 <= i < |xs| :: p(xs[i])
    ensures Filter(xs, p) == xs
  {
    if xs != [] {
      FilterAll(xs[1..], p);
      assert xs == [xs[0]] + xs[1..];
    }
  }

  // ---------------------------------------------------------------------------
  // Decimal rendering of numbers
  // ---------------------------------------------------------------------------

  function DigitChar(d: nat): (c: char)
    requires d < 10
    ensures '0' <= c <= '9'
  {
    ('0' as int + d) as char
  }

  /** The decimal text of n (String(n) in JavaScript). */
  function NatToString(n: nat): (r: string)
    ensures |r| >= 1
    ensures forall i | 0 <= i < |r| :: '0' <= r[i] <= '9'
  {
    if n < 10 then [DigitChar(n)] else NatToString(n / 10) + [DigitChar(n % 10)]
  }
}
