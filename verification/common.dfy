/** Shared vocabulary of the storefront model: optional and nullish values,
    sums over sequences, distinctness, ASCII case folding and string order,
    and the stable sort that stands for JavaScript's `Array.prototype.sort`. */
module Common {

  /** A value that may be missing (`undefined` / not found). */
  datatype Option<T> = None | Some(value: T)

  /** A field of a JSON body or JavaScript object: left out, `null`, or a value. */
  datatype Nullable<T> = Absent | Null | Present(value: T)

  /** Identifiers (UUIDs, order ids, e-mail addresses) are strings. */
  type Id = string

  /** `x ?? fallback`: the value unless it is `null` or `undefined`. */
  function Coalesce<T>(x: Nullable<T>, fallback: T): (r: T)
    ensures x.Present? ==> r == x.value
    ensures !x.Present? ==> r == fallback
  {
    match x
    case Present(v) => v
    case _ => fallback
  }

  /** JavaScript truthiness of a string-valued field: absent, null and "" are falsy. */
  predicate TruthyString(x: Nullable<string>)
  {
    x.Present? && x.value != ""
  }

  predicate Distinct<T(==)>(s: seq<T>)
  {
    forall i, j | 0 <= i < j < |s| :: s[i] != s[j]
  }

  /** `s.map(f)`: one image per element, in order. */
  function Project<T, U>(s: seq<T>, f: T -> U): (r: seq<U>)
    ensures |r| == |s| && forall i | 0 <= i < |s| :: r[i] == f(s[i])
  {
    seq(|s|, i requires 0 <= i < |s| => f(s[i]))
  }

  /** `s.filter(keep)`: the elements kept, in their original order. */
  function Filter<T>(s: seq<T>, keep: T -> bool): (r: seq<T>)
    ensures forall x | x in r :: x in s && keep(x)
    ensures forall x | x in s && keep(x) :: x in r
    ensures |r| <= |s|
    decreases |s|
  {
    if s == [] then []
    else Filter(s[..|s| - 1], keep) + (if keep(s[|s| - 1]) then [s[|s| - 1]] else [])
  }

  /** Filtering distributes over concatenation, so the kept elements keep their order. */
  lemma {:induction false} FilterAppend<T>(a: seq<T>, b: seq<T>, keep: T -> bool)
    ensures Filter(a + b, keep) == Filter(a, keep) + Filter(b, keep)
    decreases |b|
  {
    if b == [] {
      assert a + b == a;
    } else {
      assert (a + b)[..|a + b| - 1] == a + b[..|b| - 1];
      FilterAppend(a, b[..|b| - 1], keep);
    }
  }

  /** The kept elements appear in the order they had. */
  lemma {:induction false} FilterKeepsOrder<T>(s: seq<T>, keep: T -> bool, i: int, j: int)
    requires 0 <= i < j < |Filter(s, keep)|
    ensures exists p, q | 0 <= p < q < |s| :: s[p] == Filter(s, keep)[i] && s[q] == Filter(s, keep)[j]
    decreases |s|
  {
    var init := s[..|s| - 1];
    var kept := Filter(init, keep);
    var r := Filter(s, keep);
    assert forall k | 0 <= k < |kept| :: r[k] == kept[k];
    if j < |kept| {
      FilterKeepsOrder(init, keep, i, j);
      var p, q :| 0 <= p < q < |init| && init[p] == kept[i] && init[q] == kept[j];
      assert s[p] == r[i] && s[q] == r[j];
    } else {
      assert r[j] == s[|s| - 1];
      assert kept[i] in init;
      var p :| 0 <= p < |init| && init[p] == kept[i];
      assert s[p] == r[i];
    }
  }

  /** A filter that keeps everything is the identity. */
  lemma {:induction false} FilterKeepsAll<T>(s: seq<T>, keep: T -> bool)
    requires forall i | 0 <= i < |s| :: keep(s[i])
    ensures Filter(s, keep) == s
    decreases |s|
  {
    if s != [] {
      FilterKeepsAll(s[..|s| - 1], keep);
      assert s[..|s| - 1] + [s[|s| - 1]] == s;
    }
  }

  /** The sum of `f` over `s`, accumulated left to right as a `reduce` does. */
  function SumOf<T>(s: seq<T>, f: T -> int): int
    decreases |s|
  {
    if s == [] then 0 else SumOf(s[..|s| - 1], f) + f(s[|s| - 1])
  }

  lemma {:induction false} SumOfNonNegative<T>(s: seq<T>, f: T -> int)
    requires forall i | 0 <= i < |s| :: f(s[i]) >= 0
    ensures SumOf(s, f) >= 0
  {
    if s != [] {
      SumOfNonNegative(s[..|s| - 1], f);
    }
  }

  /** Two sequences of equal length whose elements contribute the same amounts pointwise
      have the same sum. */
  lemma {:induction false} SumOfMatched<A, B>(a: seq<A>, f: A -> int, b: seq<B>, g: B -> int)
    requires |a| == |b|
    requires forall i | 0 <= i < |a| :: f(a[i]) == g(b[i])
    ensures SumOf(a, f) == SumOf(b, g)
  {
    if a != [] {
      SumOfMatched(a[..|a| - 1], f, b[..|b| - 1], g);
    }
  }

  // ----- ASCII case folding and string order -----

  function UpperChar(c: char): (r: char)
    ensures 'a' <= c <= 'z' ==> r as int == c as int - 32
    ensures !('a' <= c <= 'z') ==> r == c
  {
    if 'a' <= c <= 'z' then (c as int - 32) as char else c
  }

  /** `toUpperCase`, restricted to ASCII letters. */
  function Upper(s: string): (r: string)
    ensures |r| == |s|
    ensures forall i | 0 <= i < |s| :: r[i] == UpperChar(s[i])
  {
    seq(|s|, i requires 0 <= i < |s| => UpperChar(s[i]))
  }

  /** `a.localeCompare(b) <= 0`, modelled as lexicographic order on character codes. */
  predicate LexLe(a: string, b: string)
    decreases |a|
  {
    |a| == 0 || (|b| > 0 && (a[0] < b[0] || (a[0] == b[0] && LexLe(a[1..], b[1..]))))
  }

  lemma {:induction false} LexLeReflexive(a: string)
    ensures LexLe(a, a)
    decreases |a|
  {
    if |a| > 0 {
      LexLeReflexive(a[1..]);
    }
  }

  lemma {:induction false} LexLeTotal(a: string, b: string)
    ensures LexLe(a, b) || LexLe(b, a)
    decreases |a|
  {
    if |a| > 0 && |b| > 0 && a[0] == b[0] {
      LexLeTotal(a[1..], b[1..]);
    }
  }

  lemma {:induction false} LexLeAntisymmetric(a: string, b: string)
    requires LexLe(a, b) && LexLe(b, a)
    ensures a == b
    decreases |a|
  {
    if |a| > 0 {
      LexLeAntisymmetric(a[1..], b[1..]);
      assert a == [a[0]] + a[1..] && b == [b[0]] + b[1..];
    }
  }

  lemma {:induction false} LexLeTransitive(a: string, b: string, c: string)
    requires LexLe(a, b) && LexLe(b, c)
    ensures LexLe(a, c)
    decreases |a|
  {
    if |a| > 0 && a[0] == b[0] && b[0] == c[0] {
      LexLeTransitive(a[1..], b[1..], c[1..]);
    }
  }

  // ----- stable sort -----

  predicate Sorted<T>(s: seq<T>, le: (T, T) -> bool)
  {
    forall i, j | 0 <= i < j < |s| :: le(s[i], s[j])
  }

  ghost predicate TotalPreorder<T(!new)>(le: (T, T) -> bool)
  {
    && (forall x, y :: le(x, y) || le(y, x))
    && (forall x, y, z :: le(x, y) && le(y, z) ==> le(x, z))
  }

  /** Inserts `x` after every element not greater than it, which keeps the sort stable. */
  function Insert<T>(x: T, s: seq<T>, le: (T, T) -> bool): seq<T>
  {
    if s == [] then [x]
    else if !le(s[0], x) then [x] + s
    else [s[0]] + Insert(x, s[1..], le)
  }

  /** Insertion sort: `Array.prototype.sort` with a comparator, which is stable. */
  function Sort<T>(s: seq<T>, le: (T, T) -> bool): seq<T>
    decreases |s|
  {
    if s == [] then [] else Insert(s[|s| - 1], Sort(s[..|s| - 1], le), le)
  }

  lemma {:induction false} InsertPermutation<T>(x: T, s: seq<T>, le: (T, T) -> bool)
    ensures multiset(Insert(x, s, le)) == multiset(s) + multiset{x}
    ensures |Insert(x, s, le)| == |s| + 1
  {
    if s != [] && le(s[0], x) {
      InsertPermutation(x, s[1..], le);
      assert s == [s[0]] + s[1..];
    }
  }

  lemma {:induction false} SortPermutation<T>(s: seq<T>, le: (T, T) -> bool)
    ensures multiset(Sort(s, le)) == multiset(s)
    ensures |Sort(s, le)| == |s|
    decreases |s|
  {
    if s != [] {
      var init := s[..|s| - 1];
      SortPermutation(init, le);
      InsertPermutation(s[|s| - 1], Sort(init, le), le);
      assert s == init + [s[|s| - 1]];
    }
  }

  lemma {:induction false} InsertSorted<T(!new)>(x: T, s: seq<T>, le: (T, T) -> bool)
    requires TotalPreorder(le)
    requires Sorted(s, le)
    ensures Sorted(Insert(x, s, le), le)
  {
    if s == [] {
    } else if !le(s[0], x) {
      assert le(x, s[0]);
      forall j | 0 <= j < |s| ensures le(x, s[j]) {
        if j > 0 { assert le(s[0], s[j]); }
      }
      var r := [x] + s;
      forall i, j | 0 <= i < j < |r| ensures le(r[i], r[j]) {
        if i > 0 { assert r[i] == s[i - 1] && r[j] == s[j - 1]; }
      }
    } else {
      InsertSorted(x, s[1..], le);
      var t := Insert(x, s[1..], le);
      InsertPermutation(x, s[1..], le);
      forall k | 0 <= k < |t| ensures le(s[0], t[k]) {
        assert t[k] in multiset(t);
        if t[k] != x {
          assert t[k] in multiset(s[1..]);
          var m :| 0 <= m < |s[1..]| && s[1..][m] == t[k];
          assert le(s[0], s[m + 1]);
        }
      }
      var r := [s[0]] + t;
      forall i, j | 0 <= i < j < |r| ensures le(r[i], r[j]) {
        if i > 0 { assert r[i] == t[i - 1] && r[j] == t[j - 1]; }
      }
    }
  }

  lemma {:induction false} SortSorted<T(!new)>(s: seq<T>, le: (T, T) -> bool)
    requires TotalPreorder(le)
    ensures Sorted(Sort(s, le), le)
    decreases |s|
  {
    if s != [] {
      SortSorted(s[..|s| - 1], le);
      InsertSorted(s[|s| - 1], Sort(s[..|s| - 1], le), le);
    }
  }

  /** Rearranging a sequence keeps its elements' keys distinct. */
  lemma DistinctKeysAfterPermutation<T, K>(a: seq<T>, b: seq<T>, key: T -> K)
    requires multiset(a) == multiset(b)
    requires forall i, j | 0 <= i < j < |a| :: key(a[i]) != key(a[j])
    ensures forall i, j | 0 <= i < j < |b| :: key(b[i]) != key(b[j])
  {
    forall p | 0 <= p < |a|
      ensures multiset(a)[a[p]] == 1
    {
      assert a == a[..p] + [a[p]] + a[p + 1..];
      assert a[p] !in multiset(a[..p]) by {
        forall k | 0 <= k < p ensures a[..p][k] != a[p] {
          assert a[..p][k] == a[k];
        }
      }
      assert a[p] !in multiset(a[p + 1..]) by {
        var rest := a[p + 1..];
        forall k | 0 <= k < |rest| ensures rest[k] != a[p] {
          assert rest[k] == a[p + 1 + k];
        }
      }
    }
    forall i, j | 0 <= i < j < |b|
      ensures key(b[i]) != key(b[j])
    {
      assert b[i] in multiset(a) && b[j] in multiset(a);
      var p :| 0 <= p < |a| && a[p] == b[i];
      var q :| 0 <= q < |a| && a[q] == b[j];
      assert b == b[..j] + b[j..];
      assert b[..j][i] == b[i] && b[j..][0] == b[j];
      assert multiset(b)[b[i]] == 1;
      assert b[i] != b[j];
    }
  }

  /** Two sorted arrangements of the same elements start with the same element when no two
      distinct elements are equivalent under `le`. */
  lemma HeadsAgree<T(!new)>(a: seq<T>, b: seq<T>, le: (T, T) -> bool)
    requires Sorted(a, le) && Sorted(b, le)
    requires multiset(a) == multiset(b) && a != []
    requires forall x, y | x in multiset(a) && y in multiset(a) :: le(x, y) && le(y, x) ==> x == y
    ensures b != [] && a[0] == b[0]
  {
    assert a[0] in multiset(b);
    var j :| 0 <= j < |b| && b[j] == a[0];
    assert b[0] in multiset(a);
    var i :| 0 <= i < |a| && a[i] == b[0];
    assert i == 0 || le(a[0], a[i]);
    assert j == 0 || le(b[0], b[j]);
  }

  /** Dropping the first element keeps a sequence sorted. */
  lemma SortedTail<T>(a: seq<T>, le: (T, T) -> bool)
    requires Sorted(a, le) && a != []
    ensures Sorted(a[1..], le)
  {
    forall i, j | 0 <= i < j < |a[1..]|
      ensures le(a[1..][i], a[1..][j])
    {
      assert a[1..][i] == a[i + 1] && a[1..][j] == a[j + 1];
    }
  }

  /** Two sorted arrangements of the same elements coincide when no two
      distinct elements are equivalent under `le`. */
  lemma {:induction false} SortedUnique<T(!new)>(a: seq<T>, b: seq<T>, le: (T, T) -> bool)
    requires Sorted(a, le) && Sorted(b, le)
    requires multiset(a) == multiset(b)
    requires forall x, y | x in multiset(a) && y in multiset(a) :: le(x, y) && le(y, x) ==> x == y
    ensures a == b
    decreases |a|
  {
    if a == [] {
      assert |b| == |multiset(b)| == 0;
    } else {
      HeadsAgree(a, b, le);
      TailsAgree(a, b);
      SortedTail(a, le);
      SortedTail(b, le);
      SortedUnique(a[1..], b[1..], le);
    }
  }

  /** With equal heads, equal multisets have equal tails, each within the whole. */
  lemma TailsAgree<T>(a: seq<T>, b: seq<T>)
    requires a != [] && b != [] && a[0] == b[0]
    requires multiset(a) == multiset(b)
    ensures multiset(a[1..]) == multiset(b[1..])
    ensures multiset(a[1..]) <= multiset(a)
  {
    assert a == [a[0]] + a[1..] && b == [b[0]] + b[1..];
    assert multiset(a) == multiset{a[0]} + multiset(a[1..]);
    assert multiset(b) == multiset{b[0]} + multiset(b[1..]);
    forall x
      ensures multiset(a[1..])[x] == multiset(b[1..])[x]
    {
      assert multiset(a)[x] == multiset{a[0]}[x] + multiset(a[1..])[x];
      assert multiset(b)[x] == multiset{b[0]}[x] + multiset(b[1..])[x];
    }
  }
}
