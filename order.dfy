/** Python's ordering of `str` values (code point by code point, a proper
    prefix first) and `sorted(set(names))` on a list of strings. */
module StringOrder {

  /** `a < b` on Python strings. */
  predicate Less(a: string, b: string)
    decreases |a|
  {
    if |a| == 0 then |b| > 0
    else if |b| == 0 then false
    else if a[0] == b[0] then Less(a[1..], b[1..])
    else a[0] < b[0]
  }

  lemma {:induction false} LessIrreflexive(a: string)
    ensures !Less(a, a)
    decreases |a|
  {
    if |a| > 0 { LessIrreflexive(a[1..]); }
  }

  lemma {:induction false} LessTransitive(a: string, b: string, c: string)
    requires Less(a, b) && Less(b, c)
    ensures Less(a, c)
    decreases |a|
  {
    if |a| > 0 && a[0] == b[0] && b[0] == c[0] {
      LessTransitive(a[1..], b[1..], c[1..]);
    }
  }

  lemma {:induction false} LessTotal(a: string, b: string)
    requires a != b
    ensures Less(a, b) || Less(b, a)
    decreases |a|
  {
    if |a| > 0 && |b| > 0 && a[0] == b[0] {
      assert a == [a[0]] + a[1..] && b == [b[0]] + b[1..];
      LessTotal(a[1..], b[1..]);
    }
  }

  lemma LessAsymmetric(a: string, b: string)
    requires Less(a, b)
    ensures !Less(b, a)
  {
    if Less(b, a) {
      LessTransitive(a, b, a);
      LessIrreflexive(a);
    }
  }

  /** The strings a list holds, `set(s)`. */
  function Elems(s: seq<string>): set<string> {
    set x | x in s
  }

  lemma ElemsCons(x: string, s: seq<string>)
    ensures Elems([x] + s) == {x} + Elems(s)
  {
    assert forall y :: y in [x] + s <==> y == x || y in s;
  }

  lemma ElemsEmpty(s: seq<string>)
    ensures Elems(s) == {} <==> s == []
  {
    if s != [] { assert s[0] in Elems(s); }
  }

  /** Sorted with no element repeated. */
  predicate StrictlyAscending(s: seq<string>) {
    forall i, j :: 0 <= i < j < |s| ==> Less(s[i], s[j])
  }

  lemma AscendingHasNoDuplicates(s: seq<string>, i: nat, j: nat)
    requires StrictlyAscending(s) && i < j < |s|
    ensures s[i] != s[j]
  {
    LessIrreflexive(s[i]);
  }

  /** Puts `x` into its place in an ascending list, unless it is there. */
  function Insert(x: string, s: seq<string>): (r: seq<string>)
    requires StrictlyAscending(s)
    ensures StrictlyAscending(r)
    ensures Elems(r) == Elems(s) + {x}
  {
    if s == [] then [x]
    else if x == s[0] then s
    else if Less(x, s[0]) then
      LessBelowHead(x, s);
      [x] + s
    else
      LessTotal(x, s[0]);
      var rest := Insert(x, s[1..]);
      HeadBelowInsert(x, s, rest);
      ElemsCons(s[0], s[1..]);
      ElemsCons(s[0], rest);
      assert s == [s[0]] + s[1..];
      [s[0]] + rest
  }

  lemma LessBelowHead(x: string, s: seq<string>)
    requires StrictlyAscending(s) && s != [] && Less(x, s[0])
    ensures StrictlyAscending([x] + s)
  {
    forall j | 0 < j < |s| ensures Less(x, s[j]) {
      LessTransitive(x, s[0], s[j]);
    }
  }

  lemma HeadBelowInsert(x: string, s: seq<string>, rest: seq<string>)
    requires StrictlyAscending(s) && s != [] && Less(s[0], x)
    requires StrictlyAscending(rest)
    requires Elems(rest) == Elems(s[1..]) + {x}
    ensures StrictlyAscending([s[0]] + rest)
  {
    forall j | 0 <= j < |rest| ensures Less(s[0], rest[j]) {
      assert rest[j] in Elems(rest);
      if rest[j] != x {
        var k :| 0 <= k < |s[1..]| && s[1..][k] == rest[j];
        assert s[k + 1] == rest[j];
      }
    }
  }

  /** `sorted(set(xs))`. */
  function SortedSet(xs: seq<string>): (r: seq<string>)
    ensures StrictlyAscending(r)
    ensures Elems(r) == Elems(xs)
  {
    if xs == [] then []
    else
      var init := xs[..|xs| - 1];
      assert Elems(xs) == Elems(init) + {xs[|xs| - 1]};
      Insert(xs[|xs| - 1], SortedSet(init))
  }

  /** Two strictly ascending lists with the same elements are the same list:
      `sorted(set(xs))` depends on the set of names alone. */
  lemma {:induction false} AscendingUnique(a: seq<string>, b: seq<string>)
    requires StrictlyAscending(a) && StrictlyAscending(b)
    requires Elems(a) == Elems(b)
    ensures a == b
    decreases |a|
  {
    ElemsEmpty(a);
    ElemsEmpty(b);
    if a != [] && b != [] {
      assert b[0] in Elems(a);
      assert a[0] in Elems(b);
      var ka :| 0 <= ka < |a| && a[ka] == b[0];
      var kb :| 0 <= kb < |b| && b[kb] == a[0];
      if a[0] != b[0] {
        assert ka > 0 && kb > 0;
        LessAsymmetric(a[0], a[ka]);
      }
      assert Elems(a[1..]) == Elems(b[1..]) by {
        forall y | y in Elems(a[1..])
          ensures y in Elems(b[1..])
        {
          var i :| 0 <= i < |a[1..]| && a[1..][i] == y;
          AscendingHasNoDuplicates(a, 0, i + 1);
          assert y == a[i + 1] && y in Elems(b);
          var k :| 0 <= k < |b| && b[k] == y;
          assert k > 0;
          assert b[1..][k - 1] == y;
        }
        forall y | y in Elems(b[1..])
          ensures y in Elems(a[1..])
        {
          var i :| 0 <= i < |b[1..]| && b[1..][i] == y;
          AscendingHasNoDuplicates(b, 0, i + 1);
          assert y in Elems(a);
          var k :| 0 <= k < |a| && a[k] == y;
          assert k > 0;
          assert a[1..][k - 1] == y;
        }
      }
      AscendingUnique(a[1..], b[1..]);
      assert a == [a[0]] + a[1..] && b == [b[0]] + b[1..];
    }
  }
}
