/** The order in which proving-key chunks are fetched ahead of their use. */
module Readahead {
  import opened Common

  type I64 = n: int | -TWO_TO_THE_63 <= n < TWO_TO_THE_63

  /** Signed 64-bit addition, which wraps around. */
  function Plus(a: I64, b: I64): I64 {
    (a + b + TWO_TO_THE_63) % TWO_TO_THE_64 - TWO_TO_THE_63
  }

  datatype Section = Section(offset: I64, length: I64)

  datatype Chunk = Chunk(path: string, offset: I64, size: I64)

  datatype Plan = Plan(baseUrl: string, sections: map<string, Section>, chunks: seq<Chunk>)

  /** URL parsing and reference resolution, which are not part of this model. */
  datatype Urls = Urls(parses: string -> bool, resolve: (string, string) -> string)

  datatype Range = Range(start: I64, end: I64)

  function Rank(name: string): nat {
    if name == "G2B" then 3
    else if name == "A" then 4
    else if name == "B" then 5
    else if name == "K" then 6
    else if name == "Z" then 7
    else if "BasisExpSigma" <= name then 2
    else if "Basis" <= name then 1
    else 8
  }

  predicate Precedes(sections: map<string, Section>, a: string, b: string)
    requires a in sections && b in sections
  {
    Rank(a) < Rank(b) || (Rank(a) == Rank(b) && sections[a].offset <= sections[b].offset)
  }

  /** Every section once, in dispatch order; the order of sections that tie is left open, as the sort is unstable. */
  ghost predicate IsDispatchOrder(sections: map<string, Section>, names: seq<string>) {
    && (forall name :: name in names <==> name in sections)
    && (forall i, j | 0 <= i < j < |names| :: names[i] != names[j])
    && (forall i, j | 0 <= i < j < |names| :: names[i] in sections && names[j] in sections && Precedes(sections, names[i], names[j]))
  }

  lemma InsertedPair(sections: map<string, Section>, names: seq<string>, at: nat, name: string, i: nat, j: nat)
    requires at <= |names| && name in sections && name !in names
    requires IsDispatchOrder(sections - {name}, names)
    requires forall i | 0 <= i < at :: names[i] in sections && Precedes(sections, names[i], name)
    requires at < |names| ==> names[at] in sections && !Precedes(sections, names[at], name)
    requires i < j <= |names|
    ensures var all := names[..at] + [name] + names[at..];
            all[i] != all[j] && all[i] in sections && all[j] in sections && Precedes(sections, all[i], all[j])
  {
    hide Rank;
    if i == at {
      assert at < j - 1 ==> Precedes(sections - {name}, names[at], names[j - 1]);
    } else if j == at {
      assert Precedes(sections, names[i], name);
    } else {
      var p, q := if i < at then i else i - 1, if j < at then j else j - 1;
      assert Precedes(sections - {name}, names[p], names[q]);
    }
  }

  lemma InsertedMember(names: seq<string>, at: nat, name: string, n: string)
    requires at <= |names|
    ensures n in names[..at] + [name] + names[at..] <==> n in names || n == name
  {
    assert names == names[..at] + names[at..];
  }

  /** Inserting a name at the first place whose name does not come before it. */
  lemma Inserted(sections: map<string, Section>, names: seq<string>, at: nat, name: string)
    requires at <= |names| && name in sections && name !in names
    requires IsDispatchOrder(sections - {name}, names)
    requires forall i | 0 <= i < at :: names[i] in sections && Precedes(sections, names[i], name)
    requires at < |names| ==> names[at] in sections && !Precedes(sections, names[at], name)
    ensures IsDispatchOrder(sections, names[..at] + [name] + names[at..])
  {
    hide Precedes;
    var all := names[..at] + [name] + names[at..];
    forall n
      ensures n in all <==> n in sections
    {
      InsertedMember(names, at, name, n);
      assert n in names <==> n in sections - {name};
    }
    forall i, j | 0 <= i < j < |all|
      ensures all[i] != all[j] && all[i] in sections && all[j] in sections && Precedes(sections, all[i], all[j])
    {
      InsertedPair(sections, names, at, name, i, j);
    }
  }

  method InsertName(sections: map<string, Section>, names: seq<string>, name: string) returns (all: seq<string>)
    requires name in sections && name !in names
    requires forall n <- names :: n in sections
    requires IsDispatchOrder(map n | n in names :: sections[n], names)
    ensures IsDispatchOrder(map n | n in names + [name] :: sections[n], all)
  {
    hide Rank, IsDispatchOrder;
    var at := 0;
    while at < |names| && Precedes(sections, names[at], name)
      invariant 0 <= at <= |names|
      invariant forall i | 0 <= i < at :: Precedes(sections, names[i], name)
    {
      at := at + 1;
    }
    all := names[..at] + [name] + names[at..];
    ghost var taken := map n | n in names + [name] :: sections[n];
    assert taken - {name} == map n | n in names :: sections[n];
    Inserted(taken, names, at, name);
  }

  method SortedNames(sections: map<string, Section>) returns (names: seq<string>)
    ensures IsDispatchOrder(sections, names)
  {
    names := [];
    var rest := sections.Keys;
    while rest != {}
      invariant rest <= sections.Keys
      invariant forall name :: name in names <==> name in sections && name !in rest
      invariant IsDispatchOrder(map name | name in names :: sections[name], names)
      decreases |rest|
    {
      var name :| name in rest;
      rest := rest - {name};
      ghost var taken := map n | n in names + [name] :: sections[n];
      names := InsertName(sections, names, name);
      assert taken == map n | n in names :: sections[n];
    }
    assert sections == map name | name in names :: sections[name];
  }

  predicate Overlaps(chunk: Chunk, range: Range) {
    !(Plus(chunk.offset, chunk.size) <= range.start || chunk.offset >= range.end)
  }

  const EVERYTHING := Range(0, 0x4000_0000_0000_0000)

  /** The ranges in the order they are passed over: each section, then everything. */
  ghost function Passes(sections: map<string, Section>, names: seq<string>): (passes: seq<Range>)
    requires IsDispatchOrder(sections, names)
  {
    seq(|names|, (i: nat) requires i < |names| =>
      var section := sections[names[i]]; Range(section.offset, Plus(section.offset, section.length))) + [EVERYTHING]
  }

  /** The first pass that needs the chunk; |passes| when none does. */
  ghost function FirstPass(chunk: Chunk, passes: seq<Range>): (first: nat)
    ensures first <= |passes|
    ensures first < |passes| ==> Overlaps(chunk, passes[first])
    ensures forall p | 0 <= p < first :: !Overlaps(chunk, passes[p])
  {
    if passes == [] then 0
    else if Overlaps(chunk, passes[0]) then 0
    else
      var rest := FirstPass(chunk, passes[1..]);
      assert forall p | 0 < p < rest + 1 :: passes[p] == passes[1..][p - 1];
      1 + rest
  }

  ghost predicate Listed(urls: Urls, chunks: seq<Chunk>, passes: seq<Range>, i: int) {
    0 <= i < |chunks| && urls.parses(chunks[i].path) && FirstPass(chunks[i], passes) < |passes|
  }

  /** Chunk i comes before chunk j: an earlier pass needs it, or the same pass and it has the smaller index. */
  ghost predicate Before(chunks: seq<Chunk>, passes: seq<Range>, i: int, j: int)
    requires 0 <= i < |chunks| && 0 <= j < |chunks|
  {
    var p, q := FirstPass(chunks[i], passes), FirstPass(chunks[j], passes);
    p < q || (p == q && i < j)
  }

  ghost predicate InOrder(chunks: seq<Chunk>, passes: seq<Range>, order: seq<nat>) {
    && (forall a | 0 <= a < |order| :: order[a] < |chunks|)
    && (forall a, b | 0 <= a < b < |order| :: Before(chunks, passes, order[a], order[b]))
  }

  /** The chunks to fetch: those that parse and that some pass needs, in the order of their first pass. */
  ghost predicate IsReadahead(urls: Urls, plan: Plan, names: seq<string>, order: seq<nat>)
    requires IsDispatchOrder(plan.sections, names)
  {
    var passes := Passes(plan.sections, names);
    && (forall i: nat :: i in order <==> Listed(urls, plan.chunks, passes, i))
    && InOrder(plan.chunks, passes, order)
  }

  function Resolved(urls: Urls, plan: Plan, order: seq<nat>): seq<string>
    requires forall a | 0 <= a < |order| :: order[a] < |plan.chunks|
  {
    seq(|order|, (k: nat) requires k < |order| => urls.resolve(plan.baseUrl, plan.chunks[order[k]].path))
  }

  /** The chunks listed once the first `pass` passes and the first `i` chunks of the next one are done. */
  ghost predicate ListedSoFar(urls: Urls, chunks: seq<Chunk>, passes: seq<Range>, pass: nat, i: nat, x: int) {
    && 0 <= x < |chunks| && urls.parses(chunks[x].path)
    && (FirstPass(chunks[x], passes) < pass || (FirstPass(chunks[x], passes) == pass && x < i))
  }

  /** One pass over the chunks: appends those in the range that no earlier pass took. */
  method AppendRange(urls: Urls, plan: Plan, range: Range, seen: array<bool>, soFar: seq<string>,
                     ghost passes: seq<Range>, ghost pass: nat, ghost before: seq<nat>)
    returns (out: seq<string>, ghost order: seq<nat>)
    requires seen.Length == |plan.chunks| && pass < |passes| && passes[pass] == range
    requires InOrder(plan.chunks, passes, before)
    requires forall x: nat :: x in before <==> ListedSoFar(urls, plan.chunks, passes, pass, 0, x)
    requires forall x: nat | x < seen.Length :: seen[x] <==> x in before
    requires soFar == Resolved(urls, plan, before)
    modifies seen
    ensures InOrder(plan.chunks, passes, order)
    ensures forall x: nat :: x in order <==> ListedSoFar(urls, plan.chunks, passes, pass + 1, 0, x)
    ensures forall x: nat | x < seen.Length :: seen[x] <==> x in order
    ensures out == Resolved(urls, plan, order)
  {
    hide Overlaps, FirstPass;
    out, order := soFar, before;
    for i := 0 to |plan.chunks|
      invariant InOrder(plan.chunks, passes, order)
      invariant forall x: nat :: x in order <==> ListedSoFar(urls, plan.chunks, passes, pass, i, x)
      invariant forall x: nat | x < seen.Length :: seen[x] <==> x in order
      invariant out == Resolved(urls, plan, order)
    {
      var chunk := plan.chunks[i];
      if seen[i] || !Overlaps(chunk, range) || !urls.parses(chunk.path) {
        continue;
      }
      assert FirstPass(chunk, passes) == pass;
      forall a | 0 <= a < |order|
        ensures Before(plan.chunks, passes, order[a], i)
      {
        assert order[a] in order;
      }
      seen[i] := true;
      out := out + [urls.resolve(plan.baseUrl, chunk.path)];
      order := order + [i];
    }
  }

  /**
   The URLs to warm: none without a plan, a base or chunks, or when the base does not parse; otherwise those of
   the listed chunks, for one of the dispatch orders of the sections.
   */
  method ChunkUrls(urls: Urls, plan: Option<Plan>) returns (out: seq<string>, ghost names: seq<string>, ghost order: seq<nat>)
    ensures plan.None? || plan.value.baseUrl == "" || plan.value.chunks == [] || !urls.parses(plan.value.baseUrl) ==> out == []
    ensures plan.Some? && plan.value.baseUrl != "" && plan.value.chunks != [] && urls.parses(plan.value.baseUrl) ==>
              && IsDispatchOrder(plan.value.sections, names)
              && IsReadahead(urls, plan.value, names, order)
              && out == Resolved(urls, plan.value, order)
  {
    out, names, order := [], [], [];
    if plan.None? || plan.value.baseUrl == "" || |plan.value.chunks| == 0 {
      return;
    }
    var plan := plan.value;
    if !urls.parses(plan.baseUrl) {
      return;
    }
    var sorted := SortedNames(plan.sections);
    names := sorted;
    ghost var passes := Passes(plan.sections, sorted);
    var seen := new bool[|plan.chunks|](i => false);
    for p := 0 to |sorted|
      invariant InOrder(plan.chunks, passes, order)
      invariant forall x: nat :: x in order <==> ListedSoFar(urls, plan.chunks, passes, p, 0, x)
      invariant forall x: nat | x < seen.Length :: seen[x] <==> x in order
      invariant out == Resolved(urls, plan, order)
    {
      var section := plan.sections[sorted[p]];
      out, order := AppendRange(urls, plan, Range(section.offset, Plus(section.offset, section.length)), seen, out,
                                passes, p, order);
    }
    out, order := AppendRange(urls, plan, EVERYTHING, seen, out, passes, |sorted|, order);
  }

  /** For one order of the sections there is only one such list of chunks, and no chunk is in it twice. */
  lemma {:induction false} OrderIsUnique(chunks: seq<Chunk>, passes: seq<Range>, a: seq<nat>, b: seq<nat>)
    requires InOrder(chunks, passes, a) && InOrder(chunks, passes, b)
    requires forall i: nat :: i in a <==> i in b
    ensures a == b
    ensures forall j, k | 0 <= j < k < |a| :: a[j] != a[k]
  {
    hide FirstPass;
    if |a| > 0 && |b| > 0 {
      assert a[0] in b && b[0] in a;
      assert a[0] == b[0];
      var c, d := a[1..], b[1..];
      forall i: nat
        ensures i in c <==> i in d
      {
        TailMembers(chunks, passes, a, i);
        TailMembers(chunks, passes, b, i);
      }
      OrderIsUnique(chunks, passes, c, d);
      assert a == [a[0]] + c && b == [b[0]] + d;
    } else {
      NonemptyTogether(a, b);
      NonemptyTogether(b, a);
    }
  }

  lemma NonemptyTogether(a: seq<nat>, b: seq<nat>)
    requires forall i: nat :: i in a <==> i in b
    ensures |a| > 0 ==> |b| > 0
  {
    if |a| > 0 {
      assert a[0] in b;
    }
  }

  lemma TailMembers(chunks: seq<Chunk>, passes: seq<Range>, order: seq<nat>, i: nat)
    requires InOrder(chunks, passes, order) && |order| > 0
    ensures i in order[1..] <==> i in order && i != order[0]
  {
    var tail := order[1..];
    if i in tail {
      var k :| 0 <= k < |tail| && tail[k] == i;
      assert order[k + 1] == i && Before(chunks, passes, order[0], order[k + 1]);
    }
    assert order == [order[0]] + tail;
  }

  ghost predicate Needs(sections: map<string, Section>, chunk: Chunk) {
    exists name <- sections :: OverlapsSection(chunk, sections[name])
  }

  ghost predicate OverlapsSection(chunk: Chunk, section: Section) {
    Overlaps(chunk, Range(section.offset, Plus(section.offset, section.length)))
  }

  /** A pass before the last one takes the chunk exactly when some section needs it. */
  lemma NeededBeforeLast(sections: map<string, Section>, names: seq<string>, chunk: Chunk)
    requires IsDispatchOrder(sections, names)
    ensures FirstPass(chunk, Passes(sections, names)) < |names| <==> Needs(sections, chunk)
  {
    hide Overlaps, Plus, Precedes;
    var passes := Passes(sections, names);
    var first := FirstPass(chunk, passes);
    if first < |names| {
      assert names[first] in sections && OverlapsSection(chunk, sections[names[first]]);
    }
    if name :| name in sections && OverlapsSection(chunk, sections[name]) {
      var k :| 0 <= k < |names| && names[k] == name;
      assert Overlaps(chunk, passes[k]);
    }
  }

  /** A chunk is fetched exactly when its path parses and a section, or the span of the last pass, overlaps it. */
  lemma ListedIff(urls: Urls, plan: Plan, names: seq<string>, i: nat)
    requires IsDispatchOrder(plan.sections, names) && i < |plan.chunks|
    ensures Listed(urls, plan.chunks, Passes(plan.sections, names), i) <==>
            && urls.parses(plan.chunks[i].path)
            && (Needs(plan.sections, plan.chunks[i])
                || (Plus(plan.chunks[i].offset, plan.chunks[i].size) > 0 && plan.chunks[i].offset < EVERYTHING.end))
  {
    hide Plus, IsDispatchOrder, Needs;
    NeededBeforeLast(plan.sections, names, plan.chunks[i]);
    assert Passes(plan.sections, names)[|names|] == EVERYTHING;
  }

  /** A chunk of positive size inside the first 2^62 bytes is always fetched, whatever the sections are. */
  lemma InRangeIsListed(urls: Urls, plan: Plan, names: seq<string>, i: nat)
    requires IsDispatchOrder(plan.sections, names) && i < |plan.chunks|
    requires urls.parses(plan.chunks[i].path)
    requires 0 <= plan.chunks[i].offset < EVERYTHING.end && 0 < plan.chunks[i].size <= EVERYTHING.end
    ensures Listed(urls, plan.chunks, Passes(plan.sections, names), i)
  {
    hide IsDispatchOrder, Needs;
    ListedIff(urls, plan, names, i);
  }

  /** A chunk that starts at 2^62 or later and that no section covers is left out, although its path parses. */
  lemma UncoveredChunkIsDropped(urls: Urls, path: string)
    requires urls.parses(path)
    ensures var plan := Plan("https://host/", map[], [Chunk(path, EVERYTHING.end, 1)]);
            && IsDispatchOrder(plan.sections, [])
            && !Listed(urls, plan.chunks, Passes(plan.sections, []), 0)
  {
    var plan := Plan("https://host/", map[], [Chunk(path, EVERYTHING.end, 1)]);
    ListedIff(urls, plan, [], 0);
  }

  lemma PassesGrow(chunks: seq<Chunk>, passes: seq<Range>, order: seq<nat>, a: nat, b: nat)
    requires InOrder(chunks, passes, order) && a < |order| && b < |order|
    ensures a <= b ==> FirstPass(chunks[order[a]], passes) <= FirstPass(chunks[order[b]], passes)
  {
    hide FirstPass;
    if a < b {
      assert Before(chunks, passes, order[a], order[b]);
    }
  }

  /** Chunks that no section needs come after all those that one does. */
  lemma OutsidersComeLast(urls: Urls, plan: Plan, names: seq<string>, order: seq<nat>, a: nat, b: nat)
    requires IsDispatchOrder(plan.sections, names) && IsReadahead(urls, plan, names, order)
    requires a < |order| && b < |order|
    requires order[a] < |plan.chunks| && !Needs(plan.sections, plan.chunks[order[a]])
    requires order[b] < |plan.chunks| && Needs(plan.sections, plan.chunks[order[b]])
    ensures b < a
  {
    hide Overlaps, Plus, IsDispatchOrder, Needs, FirstPass, Passes;
    NeededBeforeLast(plan.sections, names, plan.chunks[order[a]]);
    NeededBeforeLast(plan.sections, names, plan.chunks[order[b]]);
    var passes := Passes(plan.sections, names);
    PassesGrow(plan.chunks, passes, order, a, b);
  }

  /** The proving sections in the order they are dispatched. */
  const PROVING: seq<string> := ["G2B", "A", "B", "K", "Z"]

  predicate CommitmentBasis(name: string) {
    "Basis" <= name && !SigmaBasis(name)
  }

  predicate SigmaBasis(name: string) {
    "BasisExpSigma" <= name
  }

  predicate Unknown(name: string) {
    !("Basis" <= name) && name !in PROVING
  }

  /**
   Commitment bases first, then their sigma multiples, then the proving sections in their own order, and everything
   else last; among commitment bases, sigma bases or unknown sections the one at the lower offset goes first.
   */
  lemma DispatchOrder(sections: map<string, Section>, names: seq<string>, i: nat, j: nat)
    requires IsDispatchOrder(sections, names) && i < j < |names|
    ensures SigmaBasis(names[i]) ==> !CommitmentBasis(names[j])
    ensures names[i] in PROVING ==> !("Basis" <= names[j])
    ensures Unknown(names[i]) ==> Unknown(names[j])
    ensures forall p, q | 0 <= p < |PROVING| && 0 <= q < |PROVING| && names[i] == PROVING[p] && names[j] == PROVING[q] :: p < q
    ensures (CommitmentBasis(names[i]) && CommitmentBasis(names[j])) || (SigmaBasis(names[i]) && SigmaBasis(names[j]))
            || (Unknown(names[i]) && Unknown(names[j])) ==>
              sections[names[i]].offset <= sections[names[j]].offset
  {
    assert Precedes(sections, names[i], names[j]);
    RankOfKind(names[i]);
    RankOfKind(names[j]);
  }

  lemma RankOfKind(name: string)
    ensures CommitmentBasis(name) <==> Rank(name) == 1
    ensures SigmaBasis(name) <==> Rank(name) == 2
    ensures forall p | 0 <= p < |PROVING| :: name == PROVING[p] <==> Rank(name) == 3 + p
    ensures Unknown(name) <==> Rank(name) == 8
    ensures "Basis" <= name <==> CommitmentBasis(name) || SigmaBasis(name)
    ensures name in PROVING <==> exists p | 0 <= p < |PROVING| :: name == PROVING[p]
  {
    BasisIsPrefix(name);
    assert "Basis" <= name ==> name[0] == 'B' && |name| >= 5;
  }

  /** A chunk of positive size overlaps a nonempty range exactly when some byte lies in both; the ends do not wrap. */
  lemma OverlapIsSharedByte(chunk: Chunk, range: Range)
    requires chunk.size > 0 && chunk.offset + chunk.size < TWO_TO_THE_63 && range.start < range.end
    ensures Overlaps(chunk, range) <==>
            exists at: int :: Shares(chunk, range, at)
  {
    if Overlaps(chunk, range) {
      var at := if chunk.offset < range.start then range.start else chunk.offset;
      assert Shares(chunk, range, at);
    }
  }

  predicate Shares(chunk: Chunk, range: Range, at: int) {
    chunk.offset <= at < chunk.offset + chunk.size && range.start <= at < range.end
  }

  predicate Known(name: string) {
    Rank(name) < 8
  }

  /** Commitment bases, needed while solving, go before every other section; Z, which waits longest, after all known ones. */
  lemma DispatchEnds(sections: map<string, Section>, names: seq<string>, i: nat, j: nat)
    requires IsDispatchOrder(sections, names) && i < |names| && j < |names| && i != j
    ensures "Basis" <= names[i] && !("BasisExpSigma" <= names[i]) && !("Basis" <= names[j]) ==> i < j
    ensures "BasisExpSigma" <= names[i] && !("Basis" <= names[j]) ==> i < j
    ensures names[i] == "Z" && Known(names[j]) ==> j < i
  {
  }

  lemma BasisIsPrefix(name: string)
    ensures "BasisExpSigma" <= name ==> "Basis" <= name
  {
    assert "BasisExpSigma"[..5] == "Basis";
  }
}
