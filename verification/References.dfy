/** Sorting the referenced artifacts by name and compacting them within the same backing array. */
module References {
  import opened Common
  import opened Records
  import opened Order

  function Names(refs: seq<ArtifactRef>): (names: seq<string>)
    ensures |names| == |refs|
    ensures forall i | 0 <= i < |refs| :: names[i] == refs[i].name
  {
    seq(|refs|, i requires 0 <= i < |refs| => refs[i].name)
  }

  /** Two different references under one name. */
  ghost predicate Equivocated(refs: seq<ArtifactRef>) {
    exists r, s :: r in refs && s in refs && r.name == s.name && r != s
  }

  ghost predicate OrderedByName(refs: seq<ArtifactRef>) {
    forall i, j | 0 <= i < j < |refs| :: !Less(refs[j].name, refs[i].name)
  }

  ghost predicate UniquelyOrdered(refs: seq<ArtifactRef>) {
    forall i, j | 0 <= i < j < |refs| :: Less(refs[i].name, refs[j].name)
  }

  function InsertRef(ref: ArtifactRef, sorted: seq<ArtifactRef>): seq<ArtifactRef> {
    if sorted == [] || Less(ref.name, sorted[0].name) then [ref] + sorted
    else [sorted[0]] + InsertRef(ref, sorted[1..])
  }

  function SortedRefs(refs: seq<ArtifactRef>): seq<ArtifactRef> {
    if refs == [] then [] else InsertRef(refs[0], SortedRefs(refs[1..]))
  }

  lemma {:induction false} InsertRefSorts(ref: ArtifactRef, sorted: seq<ArtifactRef>)
    requires OrderedByName(sorted)
    ensures OrderedByName(InsertRef(ref, sorted))
    ensures |InsertRef(ref, sorted)| == |sorted| + 1
    ensures forall r :: r in InsertRef(ref, sorted) <==> r == ref || r in sorted
  {
    LessOrder();
    if sorted != [] && !Less(ref.name, sorted[0].name) {
      InsertRefSorts(ref, sorted[1..]);
      assert forall r :: r in sorted <==> r == sorted[0] || r in sorted[1..];
      var rest := InsertRef(ref, sorted[1..]);
      forall r | r in rest ensures !Less(r.name, sorted[0].name) {
        if r != ref {
          var k :| 0 <= k < |sorted[1..]| && sorted[1..][k] == r;
          assert sorted[k + 1] == r;
        }
      }
    }
  }

  lemma {:induction false} SortedRefsSorts(refs: seq<ArtifactRef>)
    ensures OrderedByName(SortedRefs(refs))
    ensures |SortedRefs(refs)| == |refs|
    ensures forall r :: r in SortedRefs(refs) <==> r in refs
  {
    if refs != [] {
      SortedRefsSorts(refs[1..]);
      InsertRefSorts(refs[0], SortedRefs(refs[1..]));
      assert forall r :: r in refs <==> r == refs[0] || r in refs[1..];
    }
  }

  lemma UniqueNames(refs: seq<ArtifactRef>)
    requires UniquelyOrdered(refs)
    ensures !Equivocated(refs)
  {
    LessOrder();
    forall r, s | r in refs && s in refs && r.name == s.name ensures r == s {
      var j :| 0 <= j < |refs| && refs[j] == r;
      var k :| 0 <= k < |refs| && refs[k] == s;
    }
  }

  method SortByName(all: array<ArtifactRef>)
    modifies all
    ensures OrderedByName(all[..])
    ensures forall r :: r in all[..] <==> r in old(all[..])
  {
    var sorted := SortedRefs(all[..]);
    SortedRefsSorts(all[..]);
    forall i | 0 <= i < all.Length {
      all[i] := sorted[i];
    }
    assert all[..] == sorted;
  }

  /**
   Keeps the first of each run of equal neighbours, writing into the front of the array being read.
   It refuses exactly when two different references share a name; otherwise the kept front is strictly
   ordered by name and holds the same references as before.
   */
  method SortAndCompact(all: array<ArtifactRef>) returns (ok: bool, kept: nat)
    modifies all
    ensures ok <==> !Equivocated(old(all[..]))
    ensures ok ==> kept <= all.Length && UniquelyOrdered(all[..kept])
    ensures ok ==> forall r :: r in all[..kept] <==> r in old(all[..])
  {
    ghost var given := all[..];
    SortByName(all);
    ghost var sorted := all[..];
    kept := 0;
    for i := 0 to all.Length
      invariant kept <= i
      invariant |sorted| == all.Length
      invariant forall k | i <= k < all.Length :: all[k] == sorted[k]
      invariant UniquelyOrdered(all[..kept])
      invariant forall r :: r in all[..kept] <==> r in sorted[..i]
      invariant i > 0 ==> kept > 0 && all[kept - 1].name == sorted[i - 1].name
    {
      var ref := all[i];
      assert sorted[..i + 1] == sorted[..i] + [ref];
      LessOrder();
      if kept > 0 && all[kept - 1].name == ref.name {
        assert all[kept - 1] in all[..kept];
        if all[kept - 1] != ref {
          assert all[kept - 1] in sorted[..i] && ref in sorted;
          return false, kept;
        }
      } else {
        ghost var front := all[..kept];
        assert kept > 0 ==> Less(sorted[i - 1].name, ref.name);
        forall k | 0 <= k < kept ensures Less(front[k].name, ref.name) {
          assert k < kept - 1 ==> Less(front[k].name, front[kept - 1].name);
        }
        all[kept] := ref;
        kept := kept + 1;
        assert all[..kept] == front + [ref];
      }
    }
    assert sorted[..all.Length] == sorted;
    UniqueNames(all[..kept]);
    assert forall r :: r in given <==> r in all[..kept];
    ok := true;
  }
}
