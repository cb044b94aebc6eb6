/** Byte-wise string order, sorting by it, and counting arguments over sequences. */
module Order {
  import opened Common

  /** The order of Go strings: the first difference decides, and a proper prefix comes first. */
  predicate Less(a: string, b: string) {
    if b == "" then false
    else if a == "" then true
    else if a[0] != b[0] then a[0] < b[0]
    else Less(a[1..], b[1..])
  }

  lemma {:induction false} LessIrreflexive(a: string)
    ensures !Less(a, a)
  {
    if a != "" {
      LessIrreflexive(a[1..]);
    }
  }

  lemma {:induction false} LessTransitive(a: string, b: string, c: string)
    requires Less(a, b) && Less(b, c)
    ensures Less(a, c)
  {
    if a != "" && a[0] == b[0] && b[0] == c[0] {
      LessTransitive(a[1..], b[1..], c[1..]);
    }
  }

  lemma {:induction false} LessTotal(a: string, b: string)
    ensures Less(a, b) || a == b || Less(b, a)
  {
    if a != "" && b != "" && a[0] == b[0] {
      LessTotal(a[1..], b[1..]);
      assert a == [a[0]] + a[1..] && b == [b[0]] + b[1..];
    }
  }

  /** Less, with its reflexive closure, as one usable fact. */
  lemma LessOrder()
    ensures forall a: string :: !Less(a, a)
    ensures forall a: string, b: string, c: string :: Less(a, b) && Less(b, c) ==> Less(a, c)
    ensures forall a: string, b: string :: Less(a, b) || a == b || Less(b, a)
  {
    forall a: string ensures !Less(a, a) {
      LessIrreflexive(a);
    }
    forall a: string, b: string, c: string | Less(a, b) && Less(b, c) ensures Less(a, c) {
      LessTransitive(a, b, c);
    }
    forall a: string, b: string ensures Less(a, b) || a == b || Less(b, a) {
      LessTotal(a, b);
    }
  }

  /** They agree up to k, where either `a` ends first or has the smaller character. */
  ghost predicate FirstDifference(a: string, b: string, k: nat) {
    && k <= |a| && k < |b| && (forall i | 0 <= i < k :: a[i] == b[i])
    && (k == |a| || a[k] < b[k])
  }

  lemma {:induction false} LessIffFirstDifference(a: string, b: string)
    ensures Less(a, b) <==> exists k: nat :: FirstDifference(a, b, k)
  {
    if a == "" && b != "" {
      assert FirstDifference(a, b, 0);
    } else if a != "" && b != "" {
      var c, d := a[1..], b[1..];
      LessIffFirstDifference(c, d);
      if a[0] < b[0] {
        assert FirstDifference(a, b, 0);
      }
      if a[0] == b[0] && Less(c, d) {
        var k: nat :| FirstDifference(c, d, k);
        assert FirstDifference(a, b, k + 1) by {
          assert forall i | 0 < i <= k :: a[i] == c[i - 1] && b[i] == d[i - 1];
        }
      }
      if k: nat :| FirstDifference(a, b, k) {
        if k > 0 {
          assert a[0] == b[0];
          assert FirstDifference(c, d, k - 1) by {
            assert forall i | 0 <= i < k - 1 :: c[i] == a[i + 1] && d[i] == b[i + 1];
          }
        }
      }
    }
  }

  ghost predicate StrictlyOrdered(names: seq<string>) {
    forall i, j | 0 <= i < j < |names| :: Less(names[i], names[j])
  }

  ghost predicate WeaklyOrdered(names: seq<string>) {
    forall i, j | 0 <= i < j < |names| :: !Less(names[j], names[i])
  }

  /** Neighbours in strict order are enough. */
  lemma {:induction false} AdjacentOrder(names: seq<string>, i: nat, j: nat)
    requires forall k | 0 < k < |names| :: Less(names[k - 1], names[k])
    requires i < j < |names|
    ensures Less(names[i], names[j])
  {
    if i < j - 1 {
      AdjacentOrder(names, i, j - 1);
      LessTransitive(names[i], names[j - 1], names[j]);
    }
  }

  function Insert(name: string, sorted: seq<string>): seq<string> {
    if sorted == [] || Less(name, sorted[0]) then [name] + sorted
    else [sorted[0]] + Insert(name, sorted[1..])
  }

  /** The names in order, each as often as before. */
  function Sorted(names: seq<string>): seq<string> {
    if names == [] then [] else Insert(names[0], Sorted(names[1..]))
  }

  lemma {:induction false} InsertMembers(name: string, sorted: seq<string>)
    ensures multiset(Insert(name, sorted)) == multiset{name} + multiset(sorted)
  {
    if sorted != [] && !Less(name, sorted[0]) {
      InsertMembers(name, sorted[1..]);
      assert sorted == [sorted[0]] + sorted[1..];
    }
  }

  lemma {:induction false} InsertSorts(name: string, sorted: seq<string>)
    requires WeaklyOrdered(sorted)
    ensures WeaklyOrdered(Insert(name, sorted))
    ensures multiset(Insert(name, sorted)) == multiset{name} + multiset(sorted)
  {
    hide Less;
    LessOrder();
    InsertMembers(name, sorted);
    if sorted != [] && !Less(name, sorted[0]) {
      InsertSorts(name, sorted[1..]);
      var rest := Insert(name, sorted[1..]);
      InsertMembers(name, sorted[1..]);
      forall k | 0 <= k < |rest| ensures !Less(rest[k], sorted[0]) {
        assert rest[k] in multiset(rest);
      }
    }
  }

  lemma {:induction false} SortedSorts(names: seq<string>)
    ensures WeaklyOrdered(Sorted(names))
    ensures multiset(Sorted(names)) == multiset(names)
  {
    if names != [] {
      SortedSorts(names[1..]);
      InsertSorts(names[0], Sorted(names[1..]));
      assert names == [names[0]] + names[1..];
    }
  }

  predicate Distinct(names: seq<string>) {
    forall i, j | 0 <= i < j < |names| :: names[i] != names[j]
  }

  /** Distinct names come out of sorting in strict order. */
  lemma SortedStrictly(names: seq<string>)
    requires Distinct(names)
    ensures StrictlyOrdered(Sorted(names))
    ensures forall name :: name in Sorted(names) <==> name in names
  {
    var sorted := Sorted(names);
    SortedSorts(names);
    forall name
      ensures name in sorted <==> name in names
    {
      assert name in sorted <==> name in multiset(sorted);
    }
    forall i, j | 0 <= i < j < |sorted|
      ensures Less(sorted[i], sorted[j])
    {
      LessTotal(sorted[i], sorted[j]);
      OccursOnce(names, sorted[i]);
      assert sorted == sorted[..j] + sorted[j..] && sorted[i] in sorted[..j] && sorted[j] in sorted[j..];
      assert multiset(sorted)[sorted[i]] == multiset(sorted[..j])[sorted[i]] + multiset(sorted[j..])[sorted[i]];
    }
  }

  lemma {:induction false} OccursOnce(names: seq<string>, name: string)
    requires Distinct(names)
    ensures multiset(names)[name] <= 1
  {
    if names != [] {
      OccursOnce(names[1..], name);
      assert names == [names[0]] + names[1..];
      assert names[0] == name ==> name !in names[1..];
    }
  }

  function Elements(names: seq<string>): set<string> {
    set name | name in names
  }

  lemma {:induction false} DistinctCount(names: seq<string>)
    requires Distinct(names)
    ensures |Elements(names)| == |names|
  {
    if names != [] {
      var last := |names| - 1;
      DistinctCount(names[..last]);
      assert Elements(names) == Elements(names[..last]) + {names[last]};
    }
  }

  /** An injection of [0, n) into itself reaches every value. */
  lemma {:induction false} InjectionIsOnto(n: nat, image: seq<nat>, target: nat) returns (i: nat)
    requires |image| == n && target < n
    requires forall k | 0 <= k < n :: image[k] < n
    requires forall j, k | 0 <= j < k < n :: image[j] != image[k]
    ensures i < n && image[i] == target
  {
    if image[n - 1] == target {
      return n - 1;
    }
    // Replace the largest value n-1 by the last entry, and drop the last entry.
    var last := image[n - 1];
    if last == n - 1 {
      i := InjectionIsOnto(n - 1, image[..n - 1], target);
    } else {
      var smaller := seq(n - 1, k requires 0 <= k < n - 1 => if image[k] == n - 1 then last else image[k]);
      i := InjectionIsOnto(n - 1, smaller, if target == n - 1 then last else target);
      if target == n - 1 {
        assert smaller[i] == last && image[i] != last;
      } else {
        assert image[i] == target;
      }
    }
  }
}
