/** Lexicographic order on code points, which agrees with JavaScript's `<` on
    strings (code-unit order) and with IndexedDB's key order on text inside the
    Basic Multilingual Plane, as every sort key here (ids, timestamps, dates)
    is; and the ascending sequence of a finite set of keys — the order in
    which a store iterates a table. */
module LexOrder {

  /** a sorts no later than b. */
  predicate LexLe(a: string, b: string) {
    if a == [] then true
    else if b == [] then false
    else a[0] < b[0] || (a[0] == b[0] && LexLe(a[1..], b[1..]))
  }

  /** a sorts strictly before b. */
  predicate LexLt(a: string, b: string) {
    LexLe(a, b) && a != b
  }

  lemma {:induction false} LexLeReflexive(a: string)
    ensures LexLe(a, a)
  {
    if a != [] {
      LexLeReflexive(a[1..]);
    }
  }

  lemma {:induction false} LexLeTotal(a: string, b: string)
    ensures LexLe(a, b) || LexLe(b, a)
  {
    if a != [] && b != [] && a[0] == b[0] {
      LexLeTotal(a[1..], b[1..]);
    }
  }

  lemma {:induction false} LexLeAntisymmetric(a: string, b: string)
    requires LexLe(a, b) && LexLe(b, a)
    ensures a == b
  {
    if a != [] && b != [] {
      LexLeAntisymmetric(a[1..], b[1..]);
      assert a == [a[0]] + a[1..];
      assert b == [b[0]] + b[1..];
    }
  }

  lemma {:induction false} LexLeTransitive(a: string, b: string, c: string)
    requires LexLe(a, b) && LexLe(b, c)
    ensures LexLe(a, c)
  {
    if a != [] && b != [] && c != [] && a[0] == b[0] && b[0] == c[0] {
      LexLeTransitive(a[1..], b[1..], c[1..]);
    }
  }

  lemma LexLeAntisymmetricAll()
    ensures forall a, b :: LexLe(a, b) && LexLe(b, a) ==> a == b
  {
    forall a, b | LexLe(a, b) && LexLe(b, a)
      ensures a == b
    {
      LexLeAntisymmetric(a, b);
    }
  }

  lemma LexLeTransitiveAll()
    ensures forall a, b, c :: LexLe(a, b) && LexLe(b, c) ==> LexLe(a, c)
  {
    forall a, b, c | LexLe(a, b) && LexLe(b, c)
      ensures LexLe(a, c)
    {
      LexLeTransitive(a, b, c);
    }
  }

  lemma LexLeTotalAll()
    ensures forall a, b :: LexLe(a, b) || LexLe(b, a)
  {
    forall a, b
      ensures LexLe(a, b) || LexLe(b, a)
    {
      LexLeTotal(a, b);
    }
  }

  /** Two strings that share a prefix compare as their remainders do. */
  lemma {:induction false} LexLtCommonPrefix(p: string, a: string, b: string)
    requires LexLt(a, b)
    ensures LexLt(p + a, p + b)
  {
    if p == [] {
      assert p + a == a && p + b == b;
    } else {
      LexLtCommonPrefix(p[1..], a, b);
      assert (p + a)[1..] == p[1..] + a;
      assert (p + b)[1..] == p[1..] + b;
      assert (p + a)[0] == (p + b)[0];
      assert LexLe(p + a, p + b);
    }
  }

  /** m is in s and sorts no later than any element of s. */
  predicate IsLeast(m: string, s: set<string>) {
    m in s && forall x :: x in s ==> LexLe(m, x)
  }

  /** Adding y to a set whose least element is m: the least element of the
      larger set is whichever of m and y sorts first. */
  lemma LeastOfAdded(m: string, y: string, rest: set<string>)
    requires IsLeast(m, rest)
    ensures IsLeast(m, rest + {y}) || IsLeast(y, rest + {y})
  {
    LexLeTotal(m, y);
    if LexLe(m, y) {
      forall x | x in rest + {y}
        ensures LexLe(m, x)
      {
      }
    } else {
      LexLeReflexive(y);
      forall x | x in rest + {y}
        ensures LexLe(y, x)
      {
        if x != y {
          LexLeTransitive(y, m, x);
        }
      }
    }
  }

  /** Some element of a non-empty finite set sorts no later than all others. */
  lemma {:induction false} MinExists(s: set<string>)
    requires s != {}
    ensures exists m :: IsLeast(m, s)
  {
    var y :| y in s;
    if s == {y} {
      LexLeReflexive(y);
      assert IsLeast(y, s);
    } else {
      MinExists(s - {y});
      var m :| IsLeast(m, s - {y});
      LeastOfAdded(m, y, s - {y});
      assert s - {y} + {y} == s;
    }
  }

  /** The least key of a non-empty set. */
  function MinOf(s: set<string>): (m: string)
    requires s != {}
    ensures m in s
    ensures forall x :: x in s ==> LexLe(m, x)
  {
    MinExists(s);
    LexLeAntisymmetricAll();
    var m :| IsLeast(m, s);
    m
  }

  predicate StrictlyAscending(xs: seq<string>) {
    forall i, j :: 0 <= i < j < |xs| ==> LexLt(xs[i], xs[j])
  }

  /** The keys of s in ascending order, least key first. */
  function SortedKeys(s: set<string>): seq<string>
    decreases |s|
  {
    if s == {} then [] else var m := MinOf(s); [m] + SortedKeys(s - {m})
  }

  /** SortedKeys lists each key of s exactly once, in ascending order. */
  lemma {:induction false} SortedKeysSpec(s: set<string>)
    ensures |SortedKeys(s)| == |s|
    ensures forall x :: x in SortedKeys(s) <==> x in s
    ensures StrictlyAscending(SortedKeys(s))
    decreases |s|
  {
    if s != {} {
      var m := MinOf(s);
      var rest := SortedKeys(s - {m});
      SortedKeysSpec(s - {m});
      forall j | 0 <= j < |rest|
        ensures LexLt(m, rest[j])
      {
        assert rest[j] in s - {m};
      }
      assert SortedKeys(s) == [m] + rest;
    }
  }

  /** Distinct positions of an ascending sequence hold distinct keys. */
  lemma AscendingDistinct(xs: seq<string>, i: int, j: int)
    requires StrictlyAscending(xs)
    requires 0 <= i < |xs| && 0 <= j < |xs| && i != j
    ensures xs[i] != xs[j]
  {
  }
}
