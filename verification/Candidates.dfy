/** The candidate list of a location search: duplicates are dropped in order, the rest is
    ranked by a comparator with a tolerance on confidence, and the list is cut.

    Source: apps/morro-digital-platform/src/business-location-discovery-adapter.ts */
module Candidates {
  import opened Options

  /** What deduplication and ranking read of a candidate. The location key is the normalised
      name with both coordinates at five decimals; collation is the name's place in the
      locale's order. A missing provider or identifier is the empty string. */
  datatype Candidate = Candidate(
    provider: string,
    placeId: string,
    locationKey: string,
    eligible: bool,
    confidence: real,
    distanceMeters: int,
    collation: int)

  // ---------------------------------------------------------------- duplicates

  function ProviderKey(c: Candidate): string {
    if c.provider != "" && c.placeId != "" then c.provider + ":" + c.placeId else ""
  }

  /** The same provider record, or the same name at the same spot. */
  predicate SamePlace(a: Candidate, b: Candidate) {
    || (ProviderKey(a) != "" && ProviderKey(a) == ProviderKey(b))
    || a.locationKey == b.locationKey
  }

  /** As long as no provider's name holds a colon, two candidates are the same place exactly if they
      name the same record of the same provider, or have the same name at the same spot. */
  lemma SamePlaceIff(a: Candidate, b: Candidate)
    requires ':' !in a.provider && ':' !in b.provider
    ensures SamePlace(a, b) <==>
            || (a.provider != "" && a.placeId != "" && a.provider == b.provider && a.placeId == b.placeId)
            || a.locationKey == b.locationKey
  {
    if ProviderKey(a) != "" && ProviderKey(a) == ProviderKey(b) {
      BeforeColon(a.provider, a.placeId, b.provider, b.placeId);
    }
  }

  lemma {:induction false} BeforeColon(p: string, x: string, q: string, y: string)
    requires ':' !in p && ':' !in q && p + ":" + x == q + ":" + y
    ensures p == q && x == y
  {
    var whole := p + ":" + x;
    assert whole[0] == (q + ":" + y)[0];
    if p != "" && q != "" {
      assert whole[1..] == p[1..] + ":" + x == q[1..] + ":" + y;
      BeforeColon(p[1..], x, q[1..], y);
      assert p == [p[0]] + p[1..] && q == [q[0]] + q[1..];
    } else {
      assert p == "" && q == "";
      assert whole[1..] == x && (q + ":" + y)[1..] == y;
    }
  }

  /** With a colon in a provider's name two different records are taken for one place. */
  lemma ColonJoinsTwoRecords()
    ensures
      var a, b := Candidate("a", "b:c", "here", true, 1.0, 0, 0), Candidate("a:b", "c", "there", true, 1.0, 0, 0);
      SamePlace(a, b) && a.provider != b.provider && a.placeId != b.placeId && Deduped([a, b]) == [a]
  {
    var a, b := Candidate("a", "b:c", "here", true, 1.0, 0, 0), Candidate("a:b", "c", "there", true, 1.0, 0, 0);
    assert ProviderKey(a) == "a:b:c" == ProviderKey(b);
    assert Stays([a, b], 0) && !Stays([a, b], 1);
    assert KeptUpTo([a, b], 1) == [0] && KeptUpTo([a, b], 2) == [0];
  }

  /** A candidate stays unless it is the same place as an earlier one that stayed. */
  predicate Stays(s: seq<Candidate>, i: nat)
    requires i < |s|
    decreases i
  {
    forall j :: 0 <= j < i && Stays(s, j) ==> !SamePlace(s[j], s[i])
  }

  /** The positions that stay among the first n. */
  function KeptUpTo(s: seq<Candidate>, n: nat): (positions: seq<nat>)
    requires n <= |s|
    ensures forall k :: 0 <= k < |positions| ==> positions[k] < n
    ensures forall j, k :: 0 <= j < k < |positions| ==> positions[j] < positions[k]
  {
    if n == 0 then []
    else if Stays(s, n - 1) then KeptUpTo(s, n - 1) + [n - 1]
    else KeptUpTo(s, n - 1)
  }

  function Pick(s: seq<Candidate>, positions: seq<nat>): (r: seq<Candidate>)
    requires forall k :: 0 <= k < |positions| ==> positions[k] < |s|
    ensures |r| == |positions|
    ensures forall k :: 0 <= k < |r| ==> r[k] == s[positions[k]]
  {
    seq(|positions|, k requires 0 <= k < |positions| => s[positions[k]])
  }

  function DedupedUpTo(s: seq<Candidate>, n: nat): seq<Candidate>
    requires n <= |s|
  {
    Pick(s, KeptUpTo(s, n))
  }

  function Deduped(s: seq<Candidate>): seq<Candidate> { DedupedUpTo(s, |s|) }

  lemma {:induction false} KeptStay(s: seq<Candidate>, n: nat, k: nat)
    requires n <= |s| && k < |KeptUpTo(s, n)|
    ensures Stays(s, KeptUpTo(s, n)[k])
  {
    if n > 0 && k < |KeptUpTo(s, n - 1)| { KeptStay(s, n - 1, k); }
  }

  lemma {:induction false} StayingIsKept(s: seq<Candidate>, n: nat, i: nat) returns (k: nat)
    requires i < n <= |s| && Stays(s, i)
    ensures k < |KeptUpTo(s, n)| && KeptUpTo(s, n)[k] == i
  {
    hide Stays;
    if i == n - 1 { k := |KeptUpTo(s, n - 1)|; } else { k := StayingIsKept(s, n - 1, i); }
  }

  function ProviderKeys(s: seq<Candidate>): set<string> {
    if s == [] then {} else
      var last := s[|s| - 1];
      ProviderKeys(s[..|s| - 1]) + if ProviderKey(last) != "" then {ProviderKey(last)} else {}
  }

  function LocationKeys(s: seq<Candidate>): set<string> {
    if s == [] then {} else LocationKeys(s[..|s| - 1]) + {s[|s| - 1].locationKey}
  }

  /** A candidate is the same place as one of s exactly when one of its keys is among theirs. */
  lemma {:induction false} KeysTell(s: seq<Candidate>, c: Candidate)
    ensures (exists k :: 0 <= k < |s| && SamePlace(s[k], c)) <==>
            (ProviderKey(c) != "" && ProviderKey(c) in ProviderKeys(s)) || c.locationKey in LocationKeys(s)
  {
    if s != [] {
      var n := |s| - 1;
      var t := s[..n];
      KeysTell(t, c);
      assert (exists k :: 0 <= k < |s| && SamePlace(s[k], c)) <==>
             (exists k :: 0 <= k < |t| && SamePlace(t[k], c)) || SamePlace(s[n], c) by {
        forall k | 0 <= k < |t| && SamePlace(t[k], c) ensures SamePlace(s[k], c) {}
        forall k | 0 <= k < |s| && SamePlace(s[k], c)
          ensures SamePlace(s[n], c) || exists k :: 0 <= k < |t| && SamePlace(t[k], c)
        {
          if k < n { assert SamePlace(t[k], c); }
        }
      }
    }
  }

  lemma StaysIfNew(s: seq<Candidate>, i: nat)
    requires i < |s|
    ensures Stays(s, i) <==> !exists k :: 0 <= k < |DedupedUpTo(s, i)| && SamePlace(DedupedUpTo(s, i)[k], s[i])
  {
    hide KeptUpTo;
    var kept, d := KeptUpTo(s, i), DedupedUpTo(s, i);
    if !Stays(s, i) {
      var j :| 0 <= j < i && Stays(s, j) && SamePlace(s[j], s[i]);
      var k := StayingIsKept(s, i, j);
      assert d[k] == s[j];
    }
    forall k | 0 <= k < |d| && SamePlace(d[k], s[i]) ensures !Stays(s, i) {
      KeptStay(s, i, k);
      assert d[k] == s[kept[k]];
    }
  }

  lemma DedupedOneMore(s: seq<Candidate>, i: nat)
    requires i < |s|
    ensures DedupedUpTo(s, i + 1) == if Stays(s, i) then DedupedUpTo(s, i) + [s[i]] else DedupedUpTo(s, i)
  {
    hide Stays;
  }

  /** One turn of the loop: what the keys say decides whether the candidate is kept. */
  lemma OneTurn(s: seq<Candidate>, i: nat)
    requires i < |s|
    ensures
      var kept, providerKey := DedupedUpTo(s, i), ProviderKey(s[i]);
      if (providerKey != "" && providerKey in ProviderKeys(kept)) || s[i].locationKey in LocationKeys(kept) then
        DedupedUpTo(s, i + 1) == kept
      else
        && DedupedUpTo(s, i + 1) == kept + [s[i]]
        && ProviderKeys(DedupedUpTo(s, i + 1)) ==
           (if providerKey != "" then ProviderKeys(kept) + {providerKey} else ProviderKeys(kept))
        && LocationKeys(DedupedUpTo(s, i + 1)) == LocationKeys(kept) + {s[i].locationKey}
  {
    hide Stays, KeptUpTo, DedupedUpTo;
    DedupedOneMore(s, i);
    StaysIfNew(s, i);
    var kept := DedupedUpTo(s, i);
    KeysTell(kept, s[i]);
    assert (kept + [s[i]])[..|kept|] == kept;
  }

  /** The loop with its two sets of keys seen so far. */
  method DedupeCandidates(candidates: seq<Candidate>) returns (result: seq<Candidate>)
    ensures result == Deduped(candidates)
  {
    var seenProviderIds: set<string> := {};
    var seenLocations: set<string> := {};
    result := [];
    for i := 0 to |candidates|
      invariant result == DedupedUpTo(candidates, i)
      invariant seenProviderIds == ProviderKeys(result)
      invariant seenLocations == LocationKeys(result)
    {
      OneTurn(candidates, i);
      var candidate := candidates[i];
      var providerKey := ProviderKey(candidate);
      if (providerKey != "" && providerKey in seenProviderIds) || candidate.locationKey in seenLocations {
        continue;
      }
      if providerKey != "" {
        seenProviderIds := seenProviderIds + {providerKey};
      }
      seenLocations := seenLocations + {candidate.locationKey};
      result := result + [candidate];
    }
  }

  predicate NoRepeats(s: seq<Candidate>) {
    forall j, k :: 0 <= j < k < |s| ==> !SamePlace(s[j], s[k])
  }

  /** What stays is a subsequence; no two of it are the same place; and whatever was dropped
      is the same place as one that stayed and came earlier. */
  lemma DedupeKeepsFirsts(s: seq<Candidate>)
    returns (positions: seq<nat>)
    ensures forall j, k :: 0 <= j < k < |positions| ==> positions[j] < positions[k]
    ensures |Deduped(s)| == |positions|
    ensures forall k :: 0 <= k < |positions| ==> positions[k] < |s| && Deduped(s)[k] == s[positions[k]]
    ensures NoRepeats(Deduped(s))
    ensures forall i :: 0 <= i < |s| && i !in positions ==>
              exists k :: 0 <= k < |positions| && positions[k] < i && SamePlace(Deduped(s)[k], s[i])
  {
    positions := KeptUpTo(s, |s|);
    var d := Deduped(s);
    forall j, k | 0 <= j < k < |d| ensures !SamePlace(d[j], d[k]) {
      KeptStay(s, |s|, j);
      KeptStay(s, |s|, k);
    }
    forall i | 0 <= i < |s| && i !in positions
      ensures exists k :: 0 <= k < |positions| && positions[k] < i && SamePlace(d[k], s[i])
    {
      if Stays(s, i) {
        var k := StayingIsKept(s, |s|, i);
        assert false;
      }
      var j :| 0 <= j < i && Stays(s, j) && SamePlace(s[j], s[i]);
      var k := StayingIsKept(s, |s|, j);
      assert SamePlace(d[k], s[i]);
    }
  }

  /** A choice of positions that keeps no place twice and drops only what an earlier kept one covers. */
  ghost predicate CoversOnce(s: seq<Candidate>, kept: set<nat>) {
    && (forall i :: i in kept ==> i < |s|)
    && (forall i, j :: i in kept && j in kept && j < i ==> !SamePlace(s[j], s[i]))
    && (forall i :: 0 <= i < |s| && i !in kept ==> exists j :: j in kept && j < i && SamePlace(s[j], s[i]))
  }

  /** Those facts leave no freedom: only one choice of positions has them. */
  lemma {:induction false} FirstsAreDetermined(s: seq<Candidate>, kept: set<nat>, i: nat)
    requires CoversOnce(s, kept) && i < |s|
    ensures i in kept <==> Stays(s, i)
  {
    forall j | 0 <= j < i ensures j in kept <==> Stays(s, j) {
      FirstsAreDetermined(s, kept, j);
    }
  }

  lemma {:induction false} AllStay(s: seq<Candidate>, n: nat)
    requires NoRepeats(s) && n <= |s|
    ensures DedupedUpTo(s, n) == s[..n]
  {
    if n > 0 {
      AllStay(s, n - 1);
      assert Stays(s, n - 1);
      assert s[..n] == s[..n - 1] + [s[n - 1]];
    }
  }

  /** Deduplication leaves a list alone exactly when no two of it are the same place. */
  lemma UnchangedIff(s: seq<Candidate>)
    ensures Deduped(s) == s <==> NoRepeats(s)
  {
    var _ := DedupeKeepsFirsts(s);
    if NoRepeats(s) {
      AllStay(s, |s|);
      assert s[..|s|] == s;
    }
  }

  lemma DedupingAgainChangesNothing(s: seq<Candidate>)
    ensures Deduped(Deduped(s)) == Deduped(s)
  {
    var _ := DedupeKeepsFirsts(s);
    UnchangedIff(Deduped(s));
  }

  // ------------------------------------------------------------------- ranking

  const TOLERANCE := 0.001

  function Abs(x: real): real { if x < 0.0 then -x else x }

  predicate Close(a: real, b: real) { Abs(b - a) <= TOLERANCE }

  /** The comparator: negative puts left first, positive puts right first. */
  function Compare(left: Candidate, right: Candidate): real {
    if left.eligible != right.eligible then
      if left.eligible then -1.0 else 1.0
    else
      var confidence := right.confidence - left.confidence;
      if Abs(confidence) > TOLERANCE then confidence
      else if left.distanceMeters != right.distanceMeters then
        (left.distanceMeters - right.distanceMeters) as real
      else (left.collation - right.collation) as real
  }

  predicate Less(a: Candidate, b: Candidate) { Compare(a, b) < 0.0 }

  predicate Tied(a: Candidate, b: Candidate) { Compare(a, b) == 0.0 }

  /** Eligible candidates come first, then those that are more than a thousandth more certain, then
      the nearer ones, then by name. */
  lemma ComesFirstIff(a: Candidate, b: Candidate)
    ensures Less(a, b) <==>
            || (a.eligible && !b.eligible)
            || (a.eligible == b.eligible
                && (|| a.confidence > b.confidence + 0.001
                    || (a.confidence + 0.001 >= b.confidence
                        && (|| a.distanceMeters < b.distanceMeters
                            || (a.distanceMeters == b.distanceMeters && a.collation < b.collation)))))
    ensures Tied(a, b) <==> !Less(a, b) && !Less(b, a)
  {
  }

  /** The part of a candidate on which the tolerance acts. */
  datatype Level = Level(eligible: bool, confidence: real)

  function LevelOf(c: Candidate): Level { Level(c.eligible, c.confidence) }

  ghost predicate Within(s: seq<Candidate>, levels: set<Level>) {
    forall k :: 0 <= k < |s| ==> LevelOf(s[k]) in levels
  }

  predicate Near(a: Level, b: Level) {
    a.eligible == b.eligible && Close(a.confidence, b.confidence)
  }

  /** Being within the tolerance does not chain into being outside it. */
  ghost predicate Clustered(levels: set<Level>) {
    forall a, b, c :: a in levels && b in levels && c in levels && Near(a, b) && Near(b, c) ==> Near(a, c)
  }

  /** A strict weak order on the candidates at these levels, whatever their distances and names. */
  ghost predicate Ordered(levels: set<Level>) {
    forall x, y, z :: LevelOf(x) in levels && LevelOf(y) in levels && LevelOf(z) in levels ==>
      && (Less(x, y) && Less(y, z) ==> Less(x, z))
      && (Tied(x, y) && Tied(y, z) ==> Tied(x, z))
  }

  /** Swapping the arguments swaps the verdict, so of Less, Tied and Greater one holds. */
  lemma Antisymmetric(x: Candidate, y: Candidate)
    ensures Compare(x, y) == -Compare(y, x)
  {
  }

  lemma Chains(levels: set<Level>, x: Candidate, y: Candidate, z: Candidate)
    requires Clustered(levels)
    requires LevelOf(x) in levels && LevelOf(y) in levels && LevelOf(z) in levels
    ensures Less(x, y) && Less(y, z) ==> Less(x, z)
    ensures Tied(x, y) && Tied(y, z) ==> Tied(x, z)
  {
    var a, b, c := LevelOf(x), LevelOf(y), LevelOf(z);
    assert Near(a, b) == Near(b, a) && Near(b, c) == Near(c, b) && Near(a, c) == Near(c, a);
    assert Near(a, b) && Near(b, c) ==> Near(a, c);
    assert Near(a, b) && Near(a, c) ==> Near(b, c);
    assert Near(a, c) && Near(b, c) ==> Near(a, b);
  }

  /** Three candidates of different places in a circle. */
  lemma Circle(a: Level, b: Level, c: Level) returns (x: Candidate, y: Candidate, z: Candidate)
    requires Near(a, b) && Near(b, c) && !Near(a, c)
    ensures {LevelOf(x), LevelOf(y), LevelOf(z)} == {a, b, c}
    ensures Less(x, y) && Less(y, z) && Less(z, x)
    ensures NoRepeats([x, y, z])
  {
    var high, low := if a.confidence > c.confidence then a else c, if a.confidence > c.confidence then c else a;
    x := Candidate("", "", "x", low.eligible, low.confidence, 1, 0);
    y := Candidate("", "", "y", b.eligible, b.confidence, 2, 0);
    z := Candidate("", "", "z", high.eligible, high.confidence, 3, 0);
  }

  const NEAR := Candidate("", "", "near", true, 0.9, 1, 0)
  const MIDDLE := Candidate("", "", "middle", true, 0.9008, 2, 0)
  const FAR := Candidate("", "", "far", true, 0.9016, 3, 0)

  /** Of three places, each further away and a little more certain than the one before, each of the
      first two is put before the next one, for its distance, and the last before the first. */
  lemma ThreeInACircle()
    ensures Less(NEAR, MIDDLE) && Less(MIDDLE, FAR) && Less(FAR, NEAR) && NoRepeats([NEAR, MIDDLE, FAR])
    ensures !exists t :: multiset(t) == multiset([NEAR, MIDDLE, FAR]) && Sorted(t)
  {
    forall t | multiset(t) == multiset([NEAR, MIDDLE, FAR]) ensures !Sorted(t) {
      CircleHasNoArrangement(NEAR, MIDDLE, FAR, t);
    }
  }

  /** The comparator is a strict weak order at these levels exactly when the tolerance does
      not chain among them. */
  lemma OrderedIff(levels: set<Level>)
    ensures Ordered(levels) <==> Clustered(levels)
  {
    if Clustered(levels) {
      forall x, y, z | LevelOf(x) in levels && LevelOf(y) in levels && LevelOf(z) in levels
        ensures (Less(x, y) && Less(y, z) ==> Less(x, z)) && (Tied(x, y) && Tied(y, z) ==> Tied(x, z))
      {
        Chains(levels, x, y, z);
      }
    } else {
      var a, b, c :| a in levels && b in levels && c in levels && Near(a, b) && Near(b, c) && !Near(a, c);
      var x, y, z := Circle(a, b, c);
      assert LevelOf(x) in {a, b, c} && LevelOf(y) in {a, b, c} && LevelOf(z) in {a, b, c};
      Antisymmetric(x, z);
    }
  }

  /** In particular when any two confidences are equal or further apart than the tolerance. */
  lemma SpreadIsClustered(levels: set<Level>)
    requires forall a, b :: a in levels && b in levels ==>
               a.confidence == b.confidence || !Close(a.confidence, b.confidence)
    ensures Clustered(levels)
  {
    forall a, b, c | a in levels && b in levels && c in levels && Near(a, b) && Near(b, c)
      ensures Near(a, c)
    {
      assert a.confidence == b.confidence == c.confidence;
    }
  }

  // A stable merge sort driven by the comparator, standing for the engine's sort.

  function Merge(a: seq<Candidate>, b: seq<Candidate>): seq<Candidate> {
    if a == [] then b
    else if b == [] then a
    else if Compare(a[0], b[0]) <= 0.0 then [a[0]] + Merge(a[1..], b)
    else [b[0]] + Merge(a, b[1..])
  }

  function RankCandidates(s: seq<Candidate>): seq<Candidate> {
    if |s| <= 1 then s
    else Merge(RankCandidates(s[..|s| / 2]), RankCandidates(s[|s| / 2..]))
  }

  lemma {:induction false} MergePermutes(a: seq<Candidate>, b: seq<Candidate>)
    ensures multiset(Merge(a, b)) == multiset(a) + multiset(b)
  {
    if a != [] && b != [] {
      assert a == [a[0]] + a[1..] && b == [b[0]] + b[1..];
      if Compare(a[0], b[0]) <= 0.0 { MergePermutes(a[1..], b); } else { MergePermutes(a, b[1..]); }
    }
  }

  lemma {:induction false} RankPermutes(s: seq<Candidate>)
    ensures multiset(RankCandidates(s)) == multiset(s)
  {
    if |s| > 1 {
      var half := |s| / 2;
      var l, r := s[..half], s[half..];
      assert s == l + r;
      RankPermutes(l);
      RankPermutes(r);
      MergePermutes(RankCandidates(l), RankCandidates(r));
    }
  }

  lemma MergeMembers(a: seq<Candidate>, b: seq<Candidate>, x: Candidate)
    ensures x in Merge(a, b) <==> x in a || x in b
  {
    MergePermutes(a, b);
    assert x in Merge(a, b) <==> x in multiset(Merge(a, b));
    assert x in a <==> x in multiset(a);
    assert x in b <==> x in multiset(b);
  }

  lemma RankMembers(s: seq<Candidate>, x: Candidate)
    ensures x in RankCandidates(s) <==> x in s
  {
    RankPermutes(s);
    assert x in RankCandidates(s) <==> x in multiset(RankCandidates(s));
    assert x in s <==> x in multiset(s);
  }

  predicate EligibleFirst(s: seq<Candidate>) {
    forall j, k :: 0 <= j < k < |s| && s[k].eligible ==> s[j].eligible
  }

  /** Nobody stands right before someone that the comparator puts first. */
  predicate NeighboursInOrder(s: seq<Candidate>) {
    forall k :: 0 < k < |s| ==> Compare(s[k - 1], s[k]) <= 0.0
  }

  /** However a list was sorted and wherever the comparator runs in circles: with its neighbours in
      order, no ineligible candidate comes before an eligible one. */
  lemma {:induction false} NeighboursPutEligibleFirst(s: seq<Candidate>)
    requires NeighboursInOrder(s)
    ensures EligibleFirst(s)
  {
    if |s| > 1 {
      var init := s[..|s| - 1];
      NeighboursPutEligibleFirst(init);
      forall j, k | 0 <= j < k < |s| && s[k].eligible ensures s[j].eligible {
        if k == |s| - 1 {
          assert init[k - 1].eligible;
          assert init[j].eligible;
        } else {
          assert init[j].eligible == s[j].eligible && init[k].eligible;
        }
      }
    }
  }

  /** What a merge begins with. */
  lemma MergeBegins(a: seq<Candidate>, b: seq<Candidate>)
    requires a != [] || b != []
    ensures
      Merge(a, b) != []
      && Merge(a, b)[0] == if b == [] || (a != [] && Compare(a[0], b[0]) <= 0.0) then a[0] else b[0]
  {
  }

  lemma {:induction false} MergeOrdersNeighbours(a: seq<Candidate>, b: seq<Candidate>)
    requires NeighboursInOrder(a) && NeighboursInOrder(b)
    ensures NeighboursInOrder(Merge(a, b))
    decreases |a| + |b|
  {
    if a != [] && b != [] {
      var first := Compare(a[0], b[0]) <= 0.0;
      var head, a', b' := if first then a[0] else b[0], if first then a[1..] else a, if first then b else b[1..];
      MergeOrdersNeighbours(a', b');
      MergeBegins(a', b');
      Antisymmetric(a[0], b[0]);
      assert Merge(a, b) == [head] + Merge(a', b');
      assert Compare(head, Merge(a', b')[0]) <= 0.0 by {
        if first && |a| > 1 { assert Compare(a[0], a[1]) <= 0.0; }
        if !first && |b| > 1 { assert Compare(b[0], b[1]) <= 0.0; }
      }
    }
  }

  lemma {:induction false} RankOrdersNeighbours(s: seq<Candidate>)
    ensures NeighboursInOrder(RankCandidates(s))
  {
    if |s| > 1 {
      RankOrdersNeighbours(s[..|s| / 2]);
      RankOrdersNeighbours(s[|s| / 2..]);
      MergeOrdersNeighbours(RankCandidates(s[..|s| / 2]), RankCandidates(s[|s| / 2..]));
    }
  }

  /** So it is with the merge sort, whatever the confidences. */
  lemma EligibleAlwaysFirst(s: seq<Candidate>)
    ensures EligibleFirst(RankCandidates(s))
  {
    RankOrdersNeighbours(s);
    NeighboursPutEligibleFirst(RankCandidates(s));
  }

  predicate Sorted(s: seq<Candidate>) {
    forall j, k :: 0 <= j < k < |s| ==> Compare(s[j], s[k]) <= 0.0
  }

  /** The candidates the comparator cannot tell from x, in the order they have in s. */
  function TiedWith(x: Candidate, s: seq<Candidate>): (r: seq<Candidate>)
    ensures forall k :: 0 <= k < |s| && Tied(x, s[k]) ==> r != []
  {
    if s == [] then []
    else if Tied(x, s[0]) then [s[0]] + TiedWith(x, s[1..])
    else TiedWith(x, s[1..])
  }

  lemma {:induction false} NoneTied(x: Candidate, s: seq<Candidate>)
    requires forall k :: 0 <= k < |s| ==> !Tied(x, s[k])
    ensures TiedWith(x, s) == []
  {
    if s != [] { NoneTied(x, s[1..]); }
  }

  lemma {:induction false} TiedWithJoins(x: Candidate, a: seq<Candidate>, b: seq<Candidate>)
    ensures TiedWith(x, a + b) == TiedWith(x, a) + TiedWith(x, b)
  {
    if a == [] {
      assert a + b == b;
    } else {
      assert (a + b)[1..] == a[1..] + b;
      TiedWithJoins(x, a[1..], b);
    }
  }

  /** At clustered levels, not after and not after gives not after. */
  lemma NotAfterChains(levels: set<Level>, x: Candidate, y: Candidate, z: Candidate)
    requires Clustered(levels)
    requires LevelOf(x) in levels && LevelOf(y) in levels && LevelOf(z) in levels
    requires Compare(x, y) <= 0.0 && Compare(y, z) <= 0.0
    ensures Compare(x, z) <= 0.0
    ensures Less(x, y) || Less(y, z) ==> Less(x, z)
  {
    var a, b, c := LevelOf(x), LevelOf(y), LevelOf(z);
    assert Near(a, b) == Near(b, a) && Near(b, c) == Near(c, b) && Near(a, c) == Near(c, a);
    assert Near(a, b) && Near(b, c) ==> Near(a, c);
    assert Near(a, b) && Near(a, c) ==> Near(b, c);
    assert Near(a, c) && Near(b, c) ==> Near(a, b);
  }

  /** Merging two sorted lists sorts them. */
  lemma {:induction false} MergeSorts(levels: set<Level>, a: seq<Candidate>, b: seq<Candidate>)
    requires Clustered(levels) && Within(a, levels) && Within(b, levels)
    requires Sorted(a) && Sorted(b)
    ensures Within(Merge(a, b), levels) && Sorted(Merge(a, b))
    decreases |a| + |b|
  {
    if a != [] && b != [] {
      var first := Compare(a[0], b[0]) <= 0.0;
      var head, a', b' := if first then a[0] else b[0], if first then a[1..] else a, if first then b else b[1..];
      MergeSorts(levels, a', b');
      var tail := Merge(a', b');
      assert Merge(a, b) == [head] + tail;
      forall k | 0 <= k < |tail| ensures Compare(head, tail[k]) <= 0.0 {
        MergeMembers(a', b', tail[k]);
        HeadIsLeast(levels, a, b, tail[k]);
      }
    }
  }

  /** It also keeps ties in order, those of the left list first. */
  lemma {:induction false} MergeIsStable(levels: set<Level>, a: seq<Candidate>, b: seq<Candidate>, x: Candidate)
    requires Clustered(levels) && Within(a, levels) && Within(b, levels) && LevelOf(x) in levels
    requires Sorted(a) && Sorted(b)
    ensures TiedWith(x, Merge(a, b)) == TiedWith(x, a) + TiedWith(x, b)
    decreases |a| + |b|
  {
    if a != [] && b != [] {
      if Compare(a[0], b[0]) <= 0.0 {
        MergeIsStable(levels, a[1..], b, x);
      } else {
        MergeIsStable(levels, a, b[1..], x);
        if Tied(x, b[0]) {
          Antisymmetric(a[0], b[0]);
          forall k | 0 <= k < |a| ensures !Tied(x, a[k]) {
            if k > 0 { NotAfterChains(levels, b[0], a[0], a[k]); }
            NotAfterChains(levels, x, b[0], a[k]);
          }
          NoneTied(x, a);
        }
      }
    }
  }

  lemma HeadIsLeast(levels: set<Level>, a: seq<Candidate>, b: seq<Candidate>, y: Candidate)
    requires Clustered(levels) && Within(a, levels) && Within(b, levels)
    requires Sorted(a) && Sorted(b) && a != [] && b != []
    requires y in a || y in b
    ensures Compare(a[0], b[0]) <= 0.0 ==> Compare(a[0], y) <= 0.0
    ensures Compare(a[0], b[0]) > 0.0 ==> Compare(b[0], y) <= 0.0
  {
    Antisymmetric(a[0], b[0]);
    Antisymmetric(y, y);
    if y in a {
      var k :| 0 <= k < |a| && a[k] == y;
      if k > 0 && Compare(a[0], b[0]) > 0.0 { NotAfterChains(levels, b[0], a[0], y); }
    } else {
      var k :| 0 <= k < |b| && b[k] == y;
      if k > 0 && Compare(a[0], b[0]) <= 0.0 { NotAfterChains(levels, a[0], b[0], y); }
    }
  }

  /** Where the tolerance does not chain, ranking is a stable sort. */
  lemma {:induction false} RankSorts(levels: set<Level>, s: seq<Candidate>, x: Candidate)
    requires Clustered(levels) && Within(s, levels) && LevelOf(x) in levels
    ensures Within(RankCandidates(s), levels) && Sorted(RankCandidates(s))
    ensures TiedWith(x, RankCandidates(s)) == TiedWith(x, s)
  {
    hide Merge, Clustered, TiedWith;
    if |s| > 1 {
      var l, r := s[..|s| / 2], s[|s| / 2..];
      RankSorts(levels, l, x);
      RankSorts(levels, r, x);
      MergeSorts(levels, RankCandidates(l), RankCandidates(r));
      MergeIsStable(levels, RankCandidates(l), RankCandidates(r), x);
      TiedWithJoins(x, l, r);
      assert s == l + r;
    }
  }

  /** Some order of the list has nobody before anyone that the comparator puts first. */
  ghost predicate Arrangeable(s: seq<Candidate>) {
    exists t :: multiset(t) == multiset(s) && Sorted(t)
  }

  lemma CircleHasNoArrangement(x: Candidate, y: Candidate, z: Candidate, t: seq<Candidate>)
    requires Less(x, y) && Less(y, z) && Less(z, x)
    requires multiset(t) == multiset([x, y, z])
    ensures !Sorted(t)
  {
    assert |multiset(t)| == |t| && |multiset([x, y, z])| == 3;
    assert t[0] in multiset(t);
    var first := t[0];
    var before := if first == x then z else if first == y then x else y;
    assert before in multiset([x, y, z]);
    var k :| 0 <= k < |t| && t[k] == before;
    Antisymmetric(before, first);
    Antisymmetric(first, first);
  }

  /** Every list of different places at these levels can be sorted by the comparator if and only if
      the tolerance does not chain among the levels. */
  lemma ArrangeableIff(levels: set<Level>)
    ensures (forall s :: NoRepeats(s) && Within(s, levels) ==> Arrangeable(s)) <==> Clustered(levels)
  {
    if Clustered(levels) {
      forall s | NoRepeats(s) && Within(s, levels) ensures Arrangeable(s) {
        RankPermutes(s);
        if s != [] { RankSorts(levels, s, s[0]); }
        assert Sorted(RankCandidates(s));
      }
    } else {
      var a, b, c :| a in levels && b in levels && c in levels && Near(a, b) && Near(b, c) && !Near(a, c);
      var x, y, z := Circle(a, b, c);
      assert LevelOf(x) in {a, b, c} && LevelOf(y) in {a, b, c} && LevelOf(z) in {a, b, c};
      forall t | multiset(t) == multiset([x, y, z]) ensures !Sorted(t) {
        CircleHasNoArrangement(x, y, z, t);
      }
      assert !Arrangeable([x, y, z]);
    }
  }

  /** A stable sort has only one result, so at clustered levels the ranking does not depend on
      the engine's algorithm. */
  lemma {:induction false} StableSortIsUnique(levels: set<Level>, s: seq<Candidate>, t: seq<Candidate>)
    requires Clustered(levels) && Within(s, levels) && Within(t, levels)
    requires Sorted(s) && Sorted(t)
    requires forall x :: LevelOf(x) in levels ==> TiedWith(x, s) == TiedWith(x, t)
    ensures s == t
  {
    if s == [] {
      if t != [] {
        TiedWithSelf(t);
      }
    } else {
      var x := s[0];
      Antisymmetric(x, x);
      assert TiedWith(x, s) == TiedWith(x, t) && TiedWith(x, s)[0] == x;
      if t == [] { assert false; }
      var y := t[0];
      Antisymmetric(y, y);
      assert TiedWith(y, s) == TiedWith(y, t);
      HeadsAreTied(levels, s, t);
      assert TiedWith(x, t)[0] == y;
      forall z | LevelOf(z) in levels ensures TiedWith(z, s[1..]) == TiedWith(z, t[1..]) {
        assert TiedWith(z, s) == TiedWith(z, t);
        if Tied(z, x) {
          assert TiedWith(z, s[1..]) == TiedWith(z, s)[1..];
          assert TiedWith(z, t[1..]) == TiedWith(z, t)[1..];
        }
      }
      StableSortIsUnique(levels, s[1..], t[1..]);
      assert s == [x] + s[1..] && t == [y] + t[1..];
    }
  }

  lemma TiedWithSelf(s: seq<Candidate>)
    requires s != []
    ensures TiedWith(s[0], s) != []
  {
    Antisymmetric(s[0], s[0]);
  }

  lemma {:induction false} TiedSomewhere(x: Candidate, s: seq<Candidate>) returns (k: nat)
    requires TiedWith(x, s) != []
    ensures k < |s| && Tied(x, s[k])
  {
    if Tied(x, s[0]) { k := 0; } else { k := TiedSomewhere(x, s[1..]); k := k + 1; }
  }

  lemma HeadsAreTied(levels: set<Level>, s: seq<Candidate>, t: seq<Candidate>)
    requires Clustered(levels) && Within(s, levels) && Within(t, levels)
    requires Sorted(s) && Sorted(t) && s != [] && t != []
    requires TiedWith(s[0], s) == TiedWith(s[0], t) && TiedWith(t[0], s) == TiedWith(t[0], t)
    ensures Tied(s[0], t[0])
  {
    var x, y := s[0], t[0];
    Antisymmetric(x, x);
    Antisymmetric(y, y);
    Antisymmetric(x, y);
    var i := TiedSomewhere(x, t);
    var j := TiedSomewhere(y, s);
    Antisymmetric(x, t[i]);
    Antisymmetric(y, s[j]);
    if i > 0 { NotAfterChains(levels, y, t[i], x); }
    if j > 0 { NotAfterChains(levels, x, s[j], y); }
  }

  // ---------------------------------------------------------------- the answer

  const DEFAULT_LIMIT := 8
  const MOST := 20

  function Clamp(limit: Option<int>): (n: nat)
    ensures 1 <= n <= MOST
  {
    var wanted := if limit.Some? then limit.value else DEFAULT_LIMIT;
    var atLeastOne := if wanted < 1 then 1 else wanted;
    if atLeastOne > MOST then MOST else atLeastOne
  }

  function Answer(found: seq<Candidate>, limit: Option<int>): seq<Candidate> {
    var ranked := RankCandidates(Deduped(found));
    ranked[..if |ranked| < Clamp(limit) then |ranked| else Clamp(limit)]
  }

  /** One entry per place at most. */
  lemma AnswerHasNoRepeats(found: seq<Candidate>, limit: Option<int>)
    ensures NoRepeats(Answer(found, limit))
  {
    var _ := DedupeKeepsFirsts(found);
    RankedHaveNoRepeats(Deduped(found));
  }

  /** At least one candidate is wanted, at most twenty, and eight where the caller does not say. */
  predicate Wanted(limit: Option<int>, n: nat) {
    match limit
    case None => n == 8
    case Some(wanted) => if wanted < 1 then n == 1 else if wanted > 20 then n == 20 else n == wanted
  }

  /** An answer is empty only where nothing was found, and as long as its limit and the
      number of places allow. */
  lemma AnswerLength(found: seq<Candidate>, limit: Option<int>, n: nat)
    requires Wanted(limit, n)
    ensures |Answer(found, limit)| == if |Deduped(found)| < n then |Deduped(found)| else n
    ensures Answer(found, limit) == [] <==> found == []
  {
    var d := Deduped(found);
    RankPermutes(d);
    assert |multiset(RankCandidates(d))| == |RankCandidates(d)| && |multiset(d)| == |d|;
    if found != [] {
      var k := StayingIsKept(found, |found|, 0);
    }
  }

  /** The cut never drops an eligible candidate to show an ineligible one. */
  lemma CutSparesEligible(found: seq<Candidate>, limit: Option<int>)
    ensures
      var answer := Answer(found, limit);
      forall c, shown :: c in Deduped(found) && c.eligible && shown in answer && !shown.eligible ==> c in answer
  {
    var ranked, answer := RankCandidates(Deduped(found)), Answer(found, limit);
    EligibleAlwaysFirst(Deduped(found));
    forall c, shown | c in Deduped(found) && c.eligible && shown in answer && !shown.eligible ensures c in answer {
      RankMembers(Deduped(found), c);
      var j :| 0 <= j < |ranked| && ranked[j] == c;
      var k :| 0 <= k < |answer| && answer[k] == shown;
      assert answer == ranked[..|answer|] && ranked[k] == shown;
      assert answer[j] == c;
    }
  }

  /** Where the tolerance does not chain, nothing left out belongs before anything shown. */
  lemma AnswerShowsTheBest(levels: set<Level>, found: seq<Candidate>, limit: Option<int>,
                           shown: Candidate, c: Candidate)
    requires Clustered(levels) && Within(Deduped(found), levels)
    requires shown in Answer(found, limit) && c in Deduped(found) && c !in Answer(found, limit)
    ensures Compare(shown, c) <= 0.0
  {
    var ranked, answer := RankCandidates(Deduped(found)), Answer(found, limit);
    RankSorts(levels, Deduped(found), c);
    RankMembers(Deduped(found), c);
    var j :| 0 <= j < |ranked| && ranked[j] == c;
    var k :| 0 <= k < |answer| && answer[k] == shown;
    assert answer == ranked[..|answer|] && ranked[k] == shown;
    assert forall i :: 0 <= i < |answer| ==> ranked[i] in answer;
  }

  /** Ranking cannot bring two of one place together: the list has distinct places, and so has
      every permutation of it. */
  lemma RankedHaveNoRepeats(d: seq<Candidate>)
    requires NoRepeats(d)
    ensures NoRepeats(RankCandidates(d))
  {
    var r := RankCandidates(d);
    RankPermutes(d);
    forall j, k | 0 <= j < k < |r| ensures !SamePlace(r[j], r[k]) {
      RankMembers(d, r[j]);
      RankMembers(d, r[k]);
      var j' :| 0 <= j' < |d| && d[j'] == r[j];
      var k' :| 0 <= k' < |d| && d[k'] == r[k];
      if j' == k' {
        TwiceInRank(r, j, k);
        TwiceMeansTwo(d, j');
      } else if j' < k' {
        assert !SamePlace(d[j'], d[k']);
      } else {
        assert !SamePlace(d[k'], d[j']);
      }
    }
  }

  lemma TwiceInRank(r: seq<Candidate>, j: nat, k: nat)
    requires j < k < |r| && r[j] == r[k]
    ensures multiset(r)[r[j]] >= 2
  {
    assert r == r[..k] + r[k..];
    assert r[j] in r[..k] && r[k..][0] == r[k];
    assert multiset(r[..k])[r[j]] >= 1;
    assert multiset(r[k..])[r[j]] >= 1;
  }

  lemma TwiceMeansTwo(d: seq<Candidate>, i: nat)
    requires NoRepeats(d) && i < |d|
    ensures multiset(d)[d[i]] == 1
  {
    assert d == d[..i] + [d[i]] + d[i + 1..];
    assert d[i] !in d[..i] by {
      assert forall k :: 0 <= k < i ==> !SamePlace(d[k], d[i]);
    }
    assert d[i] !in d[i + 1..] by {
      assert forall k :: i < k < |d| ==> !SamePlace(d[i], d[k]);
    }
    assert multiset(d[..i])[d[i]] == 0 && multiset(d[i + 1..])[d[i]] == 0;
  }
}
