/** String helpers shared by the data store and the data browser: JavaScript's
    default string ordering (used by `Array.prototype.sort()`), prefix and
    substring search, ASCII lower-casing and the decimal text of a number. */
module Text {

  /** No element occurs twice (a JavaScript `Set` iterated in insertion order). */
  predicate NoRepeats<T(==)>(s: seq<T>) {
    forall i, j | 0 <= i < j < |s| :: s[i] != s[j]
  }

  /** `a.startsWith(prefix)`. */
  predicate StartsWith(a: string, prefix: string) {
    |prefix| <= |a| && a[..|prefix|] == prefix
  }

  // ---------------------------------------------------------------------------
  // Ordering

  /** JavaScript's default string comparison: character by character, a proper
      prefix before any of its extensions. */
  predicate LexLess(a: string, b: string)
    decreases |a|
  {
    if a == [] then b != []
    else if b == [] then false
    else a[0] < b[0] || (a[0] == b[0] && LexLess(a[1..], b[1..]))
  }

  lemma {:induction false} LexLessIrreflexive(a: string)
    ensures !LexLess(a, a)
    decreases |a|
  {
    if a != [] {
      LexLessIrreflexive(a[1..]);
    }
  }

  lemma {:induction false} LexLessTransitive(a: string, b: string, c: string)
    requires LexLess(a, b) && LexLess(b, c)
    ensures LexLess(a, c)
    decreases |a|
  {
    if a != [] && b != [] && c != [] && a[0] == b[0] == c[0] {
      LexLessTransitive(a[1..], b[1..], c[1..]);
    }
  }

  lemma {:induction false} LexLessTotal(a: string, b: string)
    requires a != b
    ensures LexLess(a, b) || LexLess(b, a)
    decreases |a|
  {
    if a != [] && b != [] && a[0] == b[0] {
      assert a == [a[0]] + a[1..] && b == [b[0]] + b[1..];
      LexLessTotal(a[1..], b[1..]);
    }
  }

  /** Strictly ascending: sorted and without repeats. */
  predicate StrictlySorted(s: seq<string>) {
    forall i, j | 0 <= i < j < |s| :: LexLess(s[i], s[j])
  }

  /** `m` comes before every other element of `s`. */
  ghost predicate IsLeast(m: string, s: set<string>) {
    m in s && forall y | y in s :: m == y || LexLess(m, y)
  }

  lemma {:induction false} LeastExists(s: set<string>)
    requires s != {}
    ensures exists m :: IsLeast(m, s)
    decreases |s|
  {
    var x :| x in s;
    if s - {x} == {} {
      assert s == {x};
      assert IsLeast(x, s);
    } else {
      LeastExists(s - {x});
      var y :| IsLeast(y, s - {x});
      if LexLess(x, y) {
        forall z | z in s
          ensures x == z || LexLess(x, z)
        {
          if z != x && z != y {
            LexLessTransitive(x, y, z);
          }
        }
        assert IsLeast(x, s);
      } else {
        LexLessTotal(x, y);
        assert IsLeast(y, s);
      }
    }
  }

  /** The elements of a finite set of strings in ascending order: what
      `Array.prototype.sort()` makes of a list of distinct strings. */
  ghost function SortedSet(s: set<string>): (r: seq<string>)
    ensures StrictlySorted(r)
    ensures forall x :: x in r <==> x in s
    ensures |r| == |s|
    decreases |s|
  {
    if s == {} then []
    else
      LeastExists(s);
      var m :| IsLeast(m, s);
      var rest := SortedSet(s - {m});
      assert forall y | y in s - {m} :: LexLess(m, y);
      assert forall j | 0 <= j < |rest| :: rest[j] in s - {m};
      [m] + rest
  }

  /** Sorting is determined by the elements: two strictly sorted sequences
      with the same elements are equal. */
  lemma {:induction false} SortedUnique(a: seq<string>, b: seq<string>)
    requires StrictlySorted(a) && StrictlySorted(b)
    requires forall x :: x in a <==> x in b
    ensures a == b
    decreases |a|
  {
    if a != [] {
      assert a[0] in b;
    }
    if b != [] {
      assert b[0] in a;
    }
    if a != [] && b != [] {
      if a[0] != b[0] {
        assert b[0] in a;
        var i :| 0 <= i < |a| && a[i] == b[0];
        assert a[0] in b;
        var j :| 0 <= j < |b| && b[j] == a[0];
        assert LexLess(a[0], b[0]) && LexLess(b[0], a[0]);
        LexLessTransitive(a[0], b[0], a[0]);
        LexLessIrreflexive(a[0]);
      }
      assert a == [a[0]] + a[1..] && b == [b[0]] + b[1..];
      forall x
        ensures x in a[1..] <==> x in b[1..]
      {
        LexLessIrreflexive(x);
        if x in a[1..] {
          var k :| 0 <= k < |a[1..]| && a[1..][k] == x;
          assert LexLess(a[0], a[k + 1]);
          assert a[k + 1] == x && x in a && x in b;
          var m :| 0 <= m < |b| && b[m] == x;
          assert m != 0;
          assert b[1..][m - 1] == x;
        }
        if x in b[1..] {
          var k :| 0 <= k < |b[1..]| && b[1..][k] == x;
          assert LexLess(b[0], b[k + 1]);
          assert b[k + 1] == x && x in b && x in a;
          var m :| 0 <= m < |a| && a[m] == x;
          assert m != 0;
          assert a[1..][m - 1] == x;
        }
      }
      SortedUnique(a[1..], b[1..]);
    }
  }

  /** A strictly sorted sequence has no repeats. */
  lemma StrictlySortedNoRepeats(s: seq<string>)
    requires StrictlySorted(s)
    ensures NoRepeats(s)
  {
    forall i, j | 0 <= i < j < |s|
      ensures s[i] != s[j]
    {
      LexLessIrreflexive(s[i]);
    }
  }

  // ---------------------------------------------------------------------------
  // Searching

  /** `t` occurs in `s` at offset `i`. */
  predicate OccursAt(s: string, t: string, i: int) {
    0 <= i && i + |t| <= |s| && s[i..i + |t|] == t
  }

  /** `s.indexOf(t, from)`: the first offset at or after `from` where `t`
      occurs, or -1; a `from` past the end searches from the end. */
  function IndexOfFrom(s: string, t: string, from: nat): (r: int)
    ensures var start := if from <= |s| then from else |s|;
            && (r == -1 || (start <= r && OccursAt(s, t, r)))
            && (r == -1 ==> forall i | start <= i :: !OccursAt(s, t, i))
            && (r != -1 ==> forall i | start <= i < r :: !OccursAt(s, t, i))
    decreases if from <= |s| then |s| - from else |s| + 1
  {
    if from > |s| then IndexOfFrom(s, t, |s|)
    else if from + |t| > |s| then -1
    else if s[from..from + |t|] == t then from
    else IndexOfFrom(s, t, from + 1)
  }

  /** `s.indexOf(t)`; it is not -1 exactly when `t` occurs somewhere in `s`. */
  function IndexOf(s: string, t: string): (r: int)
    ensures r != -1 <==> exists i :: OccursAt(s, t, i)
    ensures r != -1 ==> OccursAt(s, t, r) && forall i | 0 <= i < r :: !OccursAt(s, t, i)
  {
    IndexOfFrom(s, t, 0)
  }

  /** Upper-case ASCII letters become lower case; every other character is
      kept. */
  function LowerChar(c: char): (r: char)
    ensures 'A' <= c <= 'Z' ==> 'a' <= r <= 'z' && r as int - c as int == 32
    ensures !('A' <= c <= 'Z') ==> r == c
  {
    if 'A' <= c <= 'Z' then (c as int + 32) as char else c
  }

  /** `s.toLowerCase()` restricted to ASCII letters. */
  function Lower(s: string): (r: string)
    ensures |r| == |s|
    ensures forall i | 0 <= i < |s| :: r[i] == LowerChar(s[i])
  {
    seq(|s|, i requires 0 <= i < |s| => LowerChar(s[i]))
  }

  /** Lower-casing both sides keeps an occurrence where it is. */
  lemma LowerKeepsOccurrence(s: string, t: string, i: int)
    requires OccursAt(s, t, i)
    ensures OccursAt(Lower(s), Lower(t), i)
  {
    forall j | 0 <= j < |t|
      ensures Lower(s)[i..i + |t|][j] == Lower(t)[j]
    {
      assert s[i..i + |t|][j] == t[j];
    }
  }

  // ---------------------------------------------------------------------------
  // Numbers as text

  function Digit(d: nat): (c: char)
    requires d < 10
  {
    "0123456789"[d]
  }

  /** The decimal text of a natural number, as `String(n)` prints it. */
  function DecimalString(n: nat): (r: string)
    ensures |r| >= 1
    ensures n >= 10 <==> |r| >= 2
    decreases n
  {
    if n < 10 then [Digit(n)] else DecimalString(n / 10) + [Digit(n % 10)]
  }

  /** Different numbers have different decimal texts. */
  lemma {:induction false} DecimalStringInjective(m: nat, n: nat)
    requires DecimalString(m) == DecimalString(n)
    ensures m == n
    decreases m
  {
    var sm, sn := DecimalString(m), DecimalString(n);
    assert sm[|sm| - 1] == sn[|sn| - 1];
    if m >= 10 && n >= 10 {
      assert DecimalString(m / 10) == sm[..|sm| - 1];
      assert DecimalString(n / 10) == sn[..|sn| - 1];
      DecimalStringInjective(m / 10, n / 10);
    }
  }

  lemma DecimalStringsDistinct()
    ensures forall m: nat, n: nat | m != n :: DecimalString(m) != DecimalString(n)
  {
    forall m: nat, n: nat | DecimalString(m) == DecimalString(n)
      ensures m == n
    {
      DecimalStringInjective(m, n);
    }
  }
}
