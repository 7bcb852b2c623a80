/** What the sanitiser keeps of a session: which values, which entries of an object and which names. */
module SessionContents {
  import opened Options
  import opened TextSanitizer
  import opened SessionSanitizer

  // ---------------------------------------------------------------- values

  /** What is kept of a value is of its kind, and a value is lost exactly if it has none or lies too deep. */
  lemma ValuesKeepTheirKind(v: Value, depth: nat)
    requires depth <= MAX_VALUE_DEPTH + 1
    ensures
      var r := Sanitize(v, depth);
      && (r.None? <==> v.Other? || (depth > 5 && !v.Null?))
      && (r.Some? ==>
            && (v.Bool? || v.Null? ==> r.value == v)
            && (v.Number? ==> r.value == if v.finite then v else Null)
            && (v.Str? <==> r.value.Str?) && (v.Arr? <==> r.value.Arr?) && (v.Obj? <==> r.value.Obj?)
            && (v.Str? ==> TextFits(r.value.text, 800, false) && r.value.text <= Normal(v.text)
                           && (|Normal(v.text)| <= 800 ==> r.value.text == Normal(v.text))))
  {
    if v.Str? { SafeTextIsTidy(v.text, MAX_TEXT); }
  }

  // ---------------------------------------------------------------- arrays

  /** `places` are, in order, the places of the items that are kept. */
  predicate KeptPlaces(items: seq<Value>, depth: nat, places: seq<nat>)
    requires depth <= MAX_VALUE_DEPTH + 1
  {
    && (forall k :: 0 <= k < |places| ==> places[k] < |items|)
    && (forall j, k :: 0 <= j < k < |places| ==> places[j] < places[k])
    && forall i :: 0 <= i < |items| ==> (i in places <==> Sanitize(items[i], depth).Some?)
  }

  /** An array keeps, in order, what is kept of each of its items. */
  lemma {:induction false} ItemsKeptInOrder(items: seq<Value>, depth: nat) returns (places: seq<nat>)
    requires depth <= MAX_VALUE_DEPTH + 1
    ensures KeptPlaces(items, depth, places) && |SanitizeItems(items, depth)| == |places|
    ensures forall k :: 0 <= k < |places| ==> Sanitize(items[places[k]], depth) == Some(SanitizeItems(items, depth)[k])
  {
    places := [];
    if items != [] {
      var n := |items| - 1;
      places := ItemsKeptInOrder(items[..n], depth);
      if Sanitize(items[n], depth).Some? {
        places := places + [n];
      }
      hide Sanitize;
      forall i | 0 <= i < |items| ensures i in places <==> Sanitize(items[i], depth).Some? {
        assert i < n ==> items[..n][i] == items[i];
      }
    }
  }

  function FirstSixty(items: seq<Value>): seq<Value> {
    if |items| <= 60 then items else items[..60]
  }

  /** An array within the depth keeps, in order, what is kept of each of its first sixty items. */
  lemma ArrayKeepsItsItems(items: seq<Value>, depth: nat) returns (places: seq<nat>)
    requires depth <= 5
    ensures KeptPlaces(FirstSixty(items), depth + 1, places)
    ensures
      var r := Sanitize(Arr(items), depth);
      && r.Some? && r.value.Arr? && |r.value.items| == |places|
      && forall k :: 0 <= k < |places| ==> Sanitize(items[places[k]], depth + 1) == Some(r.value.items[k])
  {
    places := ItemsKeptInOrder(FirstSixty(items), depth + 1);
  }

  // ---------------------------------------------------------------- assigning properties

  /** What an entry assigns, if it assigns anything. */
  type Assignment = Option<(Text, Value)>

  function Assigned(assignments: seq<Assignment>): Entries {
    if assignments == [] then []
    else
      var init, last := Assigned(assignments[..|assignments| - 1]), assignments[|assignments| - 1];
      if last.Some? then Put(init, last.value.0, last.value.1) else init
  }

  predicate Assigns(assignments: seq<Assignment>, i: nat, key: Text) {
    i < |assignments| && assignments[i].Some? && assignments[i].value.0 == key
  }

  predicate AssignsLast(assignments: seq<Assignment>, i: nat, key: Text) {
    Assigns(assignments, i, key) && forall j :: i < j < |assignments| ==> !Assigns(assignments, j, key)
  }

  predicate AssignsFirst(assignments: seq<Assignment>, i: nat, key: Text) {
    Assigns(assignments, i, key) && forall j: nat :: j < i ==> !Assigns(assignments, j, key)
  }

  lemma {:induction false} PutIff(entries: Entries, key: Text, value: Value)
    requires DistinctKeys(entries)
    ensures forall e :: e in Put(entries, key, value) <==> e == (key, value) || (e in entries && e.0 != key)
  {
    if entries != [] {
      var rest := entries[1..];
      PutIff(rest, key, value);
      assert entries == [entries[0]] + rest;
      if entries[0].0 == key {
        KeysOf(rest);
      }
    }
  }

  lemma {:induction false} KeysOf(entries: Entries)
    ensures forall e :: e in entries ==> e.0 in KeySet(entries)
  {
    if entries != [] {
      KeysOf(entries[1..]);
    }
  }

  lemma {:induction false} AssignedDistinct(assignments: seq<Assignment>)
    ensures DistinctKeys(Assigned(assignments))
  {
    if assignments != [] {
      var init, last := assignments[..|assignments| - 1], assignments[|assignments| - 1];
      AssignedDistinct(init);
      if last.Some? {
        PutKeeps(Assigned(init), last.value.0, last.value.1);
      }
    }
  }

  predicate DecidesValue(assignments: seq<Assignment>, i: nat, e: (Text, Value)) {
    AssignsLast(assignments, i, e.0) && assignments[i] == Some(e)
  }

  /** The last assignment of a key decides its value. */
  lemma {:induction false} LastAssignmentWins(assignments: seq<Assignment>)
    ensures forall e :: e in Assigned(assignments) <==> exists i :: DecidesValue(assignments, i, e)
  {
    if assignments != [] {
      var n := |assignments| - 1;
      var init, last := assignments[..n], assignments[n];
      LastAssignmentWins(init);
      AssignedDistinct(init);
      if last.Some? {
        PutIff(Assigned(init), last.value.0, last.value.1);
      }
      forall e ensures e in Assigned(assignments) <==> exists i :: DecidesValue(assignments, i, e) {
        OneMoreAssignment(assignments, e);
        assert DecidesValue(assignments, n, e) <==> last == Some(e);
      }
    }
  }

  lemma OneMoreAssignment(assignments: seq<Assignment>, e: (Text, Value))
    requires assignments != []
    ensures
      var n := |assignments| - 1;
      forall i: nat :: i < n ==>
        (DecidesValue(assignments, i, e) <==> DecidesValue(assignments[..n], i, e) && !Assigns(assignments, n, e.0))
  {
    var n := |assignments| - 1;
    assert forall j: nat :: j < n ==> Assigns(assignments, j, e.0) == Assigns(assignments[..n], j, e.0);
  }

  function Keys(entries: Entries): (keys: seq<Text>)
    ensures |keys| == |entries|
  {
    seq(|entries|, i requires 0 <= i < |entries| => entries[i].0)
  }

  /** A key keeps its place when it is assigned again, and a new one comes last. */
  lemma {:induction false} PutPlaces(entries: Entries, key: Text, value: Value)
    ensures Keys(Put(entries, key, value)) == if key in Keys(entries) then Keys(entries) else Keys(entries) + [key]
  {
    if entries != [] {
      var keys, rest := Keys(entries), entries[1..];
      PutPlaces(rest, key, value);
      assert keys == [entries[0].0] + Keys(rest);
      assert Keys(Put(entries, key, value)) == [entries[0].0] + if entries[0].0 == key then Keys(rest) else
        Keys(Put(rest, key, value));
    }
  }

  ghost predicate IsAssigned(assignments: seq<Assignment>, key: Text) {
    exists i :: Assigns(assignments, i, key)
  }

  lemma {:induction false} KeysAreAssigned(assignments: seq<Assignment>)
    ensures forall key :: key in Keys(Assigned(assignments)) <==> IsAssigned(assignments, key)
  {
    if assignments != [] {
      var n := |assignments| - 1;
      var init, last := assignments[..n], assignments[n];
      KeysAreAssigned(init);
      if last.Some? {
        PutPlaces(Assigned(init), last.value.0, last.value.1);
      }
      forall key ensures IsAssigned(assignments, key) <==> IsAssigned(init, key) || Assigns(assignments, n, key) {
        if i :| Assigns(init, i, key) {
          assert Assigns(assignments, i, key);
        }
        if i: nat :| i < n && Assigns(assignments, i, key) {
          assert Assigns(init, i, key);
        }
      }
    }
  }

  /** `key` is assigned for the first time before `other` is. */
  ghost predicate AssignedBefore(assignments: seq<Assignment>, key: Text, other: Text) {
    forall i, j :: AssignsFirst(assignments, i, key) && AssignsFirst(assignments, j, other) ==> i < j
  }

  ghost predicate InFirstOrder(assignments: seq<Assignment>, keys: seq<Text>) {
    forall a, b :: 0 <= a < b < |keys| ==> AssignedBefore(assignments, keys[a], keys[b])
  }

  /** Keys come in the order of their first assignments. */
  lemma {:induction false} FirstAssignmentsInOrder(assignments: seq<Assignment>)
    ensures InFirstOrder(assignments, Keys(Assigned(assignments)))
  {
    if assignments != [] {
      var n := |assignments| - 1;
      var init, last := assignments[..n], assignments[n];
      var before, keys := Keys(Assigned(init)), Keys(Assigned(assignments));
      FirstAssignmentsInOrder(init);
      KeysAreAssigned(init);
      if last.Some? {
        PutPlaces(Assigned(init), last.value.0, last.value.1);
      }
      assert keys == before || (keys == before + [last.value.0] && last.value.0 !in before);
      forall a, b | 0 <= a < b < |keys| ensures AssignedBefore(assignments, keys[a], keys[b]) {
        assert keys[a] in before && keys[a] == before[a];
        assert IsAssigned(init, keys[a]);
        if IsAssigned(init, keys[b]) {
          assert keys[b] in before && b < |before| && keys[b] == before[b];
          assert AssignedBefore(init, before[a], before[b]);
        }
        BeforeWithOneMore(assignments, init, keys[a], keys[b]);
      }
    }
  }

  lemma BeforeWithOneMore(assignments: seq<Assignment>, init: seq<Assignment>, key: Text, other: Text)
    requires assignments != [] && init == assignments[..|assignments| - 1] && IsAssigned(init, key)
    requires IsAssigned(init, other) ==> AssignedBefore(init, key, other)
    ensures AssignedBefore(assignments, key, other)
  {
    var k: nat :| Assigns(init, k, key);
    forall i: nat, j: nat | AssignsFirst(assignments, i, key) && AssignsFirst(assignments, j, other) ensures i < j {
      assert Assigns(assignments, k, key) && i <= k;
      assert AssignsFirst(init, i, key) by {
        assert forall m: nat :: m < i && Assigns(init, m, key) ==> Assigns(assignments, m, key);
      }
      if j < |init| {
        assert AssignsFirst(init, j, other) by {
          assert forall m: nat :: m < j && Assigns(init, m, other) ==> Assigns(assignments, m, other);
        }
        assert IsAssigned(init, other);
      }
    }
  }

  // ---------------------------------------------------------------- objects and contexts

  /** Entry `e` of an object assigns `value` to `key`. */
  predicate Contributes(e: (Text, Value), depth: nat, key: Text, value: Value)
    requires depth <= MAX_VALUE_DEPTH + 1
  {
    && SafeText(e.0, 100) == key && key != []
    && key != Units("__proto__") && key != Units("constructor") && key != Units("prototype")
    && Sanitize(e.1, depth) == Some(value)
  }

  function AssignmentOf(e: (Text, Value), depth: nat): Assignment
    requires depth <= MAX_VALUE_DEPTH + 1
  {
    var kept := Sanitize(e.1, depth);
    if KeepsKey(SafeText(e.0, MAX_KEY)) && kept.Some? then Some((SafeText(e.0, MAX_KEY), kept.value)) else None
  }

  function AssignmentsOf(entries: Entries, depth: nat): seq<Assignment>
    requires depth <= MAX_VALUE_DEPTH + 1
  {
    seq(|entries|, i requires 0 <= i < |entries| => AssignmentOf(entries[i], depth))
  }

  lemma {:induction false} ObjectIsAssigned(entries: Entries, depth: nat)
    requires depth <= MAX_VALUE_DEPTH + 1
    ensures SanitizeEntries(entries, depth) == Assigned(AssignmentsOf(entries, depth))
  {
    if entries != [] {
      var n := |entries| - 1;
      ObjectIsAssigned(entries[..n], depth);
      assert AssignmentsOf(entries, depth)[..n] == AssignmentsOf(entries[..n], depth);
    }
  }

  /** Entry `i` is the last one to assign to the key of `e`, and assigns its value. */
  ghost predicate ContributesLast(entries: Entries, depth: nat, i: nat, e: (Text, Value))
    requires depth <= MAX_VALUE_DEPTH + 1
  {
    && i < |entries| && Contributes(entries[i], depth, e.0, e.1)
    && forall j, v :: i < j < |entries| ==> !Contributes(entries[j], depth, e.0, v)
  }

  /** Text `key` is what the key of some entry comes to, and the entry is kept. */
  ghost predicate HasEntry(entries: Entries, depth: nat, i: nat, key: Text)
    requires depth <= MAX_VALUE_DEPTH + 1
  {
    i < |entries| && exists v :: Contributes(entries[i], depth, key, v)
  }

  /** An object keeps, under each key, what its last entry for that key holds. */
  lemma ObjectKeepsLast(entries: Entries, depth: nat)
    requires depth <= MAX_VALUE_DEPTH + 1
    ensures forall e :: e in SanitizeEntries(entries, depth) <==> exists i :: ContributesLast(entries, depth, i, e)
  {
    var assignments := AssignmentsOf(entries, depth);
    ObjectIsAssigned(entries, depth);
    LastAssignmentWins(assignments);
    forall e, i: nat ensures DecidesValue(assignments, i, e) <==> ContributesLast(entries, depth, i, e) {
      forall j: nat | j < |entries|
        ensures Assigns(assignments, j, e.0) <==> exists v :: Contributes(entries[j], depth, e.0, v)
      {
        if Assigns(assignments, j, e.0) {
          assert Contributes(entries[j], depth, e.0, assignments[j].value.1);
        }
      }
    }
  }

  ghost predicate ContributesFirst(entries: Entries, depth: nat, i: nat, key: Text)
    requires depth <= MAX_VALUE_DEPTH + 1
  {
    HasEntry(entries, depth, i, key) && forall j: nat :: j < i ==> !HasEntry(entries, depth, j, key)
  }

  /** The keys of an object come in the order of the first entries that assign to them. */
  lemma ObjectKeepsOrder(entries: Entries, depth: nat, a: nat, b: nat, i: nat, j: nat)
    requires depth <= MAX_VALUE_DEPTH + 1 && a < b < |SanitizeEntries(entries, depth)|
    requires ContributesFirst(entries, depth, i, SanitizeEntries(entries, depth)[a].0)
    requires ContributesFirst(entries, depth, j, SanitizeEntries(entries, depth)[b].0)
    ensures i < j
  {
    var assignments := AssignmentsOf(entries, depth);
    ObjectIsAssigned(entries, depth);
    FirstAssignmentsInOrder(assignments);
    var keys := Keys(Assigned(assignments));
    assert AssignedBefore(assignments, keys[a], keys[b]);
    forall k: nat, key ensures Assigns(assignments, k, key) <==> HasEntry(entries, depth, k, key) {
      if Assigns(assignments, k, key) {
        assert Contributes(entries[k], depth, key, assignments[k].value.1);
      }
    }
    assert AssignsFirst(assignments, i, keys[a]) && AssignsFirst(assignments, j, keys[b]);
  }

  function FirstEighty(entries: Entries): Entries {
    if |entries| <= 80 then entries else entries[..80]
  }

  /** An object within the depth keeps, under each key, what the last of its first eighty entries for
      that key holds. */
  lemma ObjectKeepsItsEntries(entries: Entries, depth: nat)
    requires depth <= 5
    ensures
      var r, head, inner := Sanitize(Obj(entries), depth), FirstEighty(entries), depth + 1;
      && r.Some? && r.value.Obj?
      && forall e :: e in r.value.entries <==> exists i :: ContributesLast(head, inner, i, e)
  {
    ObjectKeepsLast(FirstEighty(entries), depth + 1);
  }

  /** Entry `i` of a context holds what is kept under the key of `e`. */
  ghost predicate HoldsLast(entries: Entries, i: nat, e: (Text, Value)) {
    && i < |entries| && entries[i].0 == e.0 && Sanitize(entries[i].1, 0) == Some(e.1)
    && forall j :: i < j < |entries| && entries[j].0 == e.0 ==> Sanitize(entries[j].1, 0).None?
  }

  function ContextAssignment(e: (Text, Value)): Assignment {
    var kept := Sanitize(e.1, 0);
    if Persisted(e.0) && kept.Some? then Some((e.0, kept.value)) else None
  }

  lemma {:induction false} ContextIsAssigned(entries: Entries)
    ensures ContextEntries(entries)
         == Assigned(seq(|entries|, i requires 0 <= i < |entries| => ContextAssignment(entries[i])))
  {
    hide Persisted, Sanitize;
    if entries != [] {
      var n := |entries| - 1;
      ContextIsAssigned(entries[..n]);
      var assignments := seq(|entries|, i requires 0 <= i < |entries| => ContextAssignment(entries[i]));
      assert assignments[..n] == seq(n, i requires 0 <= i < n => ContextAssignment(entries[..n][i]));
    }
  }

  /** A context keeps, under each of its persistent keys and under no other, what the last entry for
      that key that can be kept holds. */
  lemma ContextKeepsLast(entries: Entries)
    ensures forall e :: e in SanitizeContext(Obj(entries)) <==> Persisted(e.0) && exists i :: HoldsLast(entries, i, e)
  {
    hide Persisted, Sanitize;
    var assignments := seq(|entries|, i requires 0 <= i < |entries| => ContextAssignment(entries[i]));
    ContextIsAssigned(entries);
    LastAssignmentWins(assignments);
    forall e, i: nat ensures DecidesValue(assignments, i, e) <==> Persisted(e.0) && HoldsLast(entries, i, e) {
      forall j: nat | j < |entries|
        ensures Assigns(assignments, j, e.0)
            <==> entries[j].0 == e.0 && Persisted(e.0) && Sanitize(entries[j].1, 0).Some?
      {
        assert assignments[j] == ContextAssignment(entries[j]);
      }
    }
  }

  // ---------------------------------------------------------------- capabilities

  /** Item `i` has a name, and is the first with that name. */
  predicate BeginsName(items: seq<Value>, i: nat) {
    && i < |items| && NameOf(items[i]) != []
    && forall j :: 0 <= j < i ==> NameOf(items[j]) != NameOf(items[i])
  }

  /** `places` are, in order, the first places of the names that items have. */
  predicate NamedPlaces(items: seq<Value>, places: seq<nat>) {
    && (forall k :: 0 <= k < |places| ==> BeginsName(items, places[k]))
    && (forall j, k :: 0 <= j < k < |places| ==> places[j] < places[k])
    && forall i :: 0 <= i < |items| && BeginsName(items, i) ==> i in places
  }

  lemma {:induction false} NamesAreOfItems(items: seq<Value>)
    ensures
      forall name :: name in Names(items) <==>
        name != [] && exists i :: 0 <= i < |items| && NameOf(items[i]) == name
  {
    hide NameOf;
    if items != [] {
      NamesAreOfItems(items[..|items| - 1]);
    }
  }

  /** Capabilities are the names of the items, each once, in the order of their first appearance. */
  lemma {:induction false} NamesInOrder(items: seq<Value>) returns (places: seq<nat>)
    ensures NamedPlaces(items, places) && |Names(items)| == |places|
    ensures forall k :: 0 <= k < |places| ==> Names(items)[k] == NameOf(items[places[k]])
  {
    hide NameOf;
    places := [];
    if items != [] {
      var n := |items| - 1;
      places := NamesInOrder(items[..n]);
      NamesAreOfItems(items[..n]);
      assert BeginsName(items, n) <==> NameOf(items[n]) != [] && NameOf(items[n]) !in Names(items[..n]);
      hide Names;
      forall i: nat | i < n ensures BeginsName(items, i) == BeginsName(items[..n], i) {
        assert forall j :: 0 <= j <= i ==> items[..n][j] == items[j];
      }
      if BeginsName(items, n) {
        places := places + [n];
      }
    }
  }

  /** Of an array the first sixty names are kept as capabilities, of anything else none. */
  lemma CapabilitiesAreTheFirstNames(v: Value) returns (places: seq<nat>)
    ensures !v.Arr? ==> SanitizeCapabilities(v) == []
    ensures v.Arr? ==>
              && NamedPlaces(v.items, places)
              && |SanitizeCapabilities(v)| == (if |places| <= 60 then |places| else 60)
              && forall k :: 0 <= k < |SanitizeCapabilities(v)| ==>
                   SanitizeCapabilities(v)[k] == NameOf(v.items[places[k]])
  {
    places := [];
    if v.Arr? {
      places := NamesInOrder(v.items);
    }
  }

  /** An item has a name exactly if it is text that says something, and the name is that text, cut. */
  lemma NameIsCleanText(v: Value)
    ensures NameOf(v) == [] <==> !v.Str? || Words(v.text) == []
    ensures v.Str? ==> NameOf(v) <= Normal(v.text) && |NameOf(v)| <= 120
                       && (|Normal(v.text)| <= 120 ==> NameOf(v) == Normal(v.text))
  {
    if v.Str? {
      NormalIff(v.text, Normal(v.text));
      NormalIff(v.text, []);
    }
  }

  predicate Holds(entries: Entries, i: nat, key: Text) {
    i < |entries| && entries[i].0 == key && Sanitize(entries[i].1, 0).Some?
  }

  lemma {:induction false} LastThatHolds(entries: Entries, i: nat, key: Text) returns (last: nat, v: Value)
    requires Holds(entries, i, key)
    ensures HoldsLast(entries, last, (key, v))
    decreases |entries| - i
  {
    if j: nat :| i < j < |entries| && Holds(entries, j, key) {
      last, v := LastThatHolds(entries, j, key);
    } else {
      last, v := i, Sanitize(entries[i].1, 0).value;
      assert forall j: nat :: i < j < |entries| && entries[j].0 == key ==> !Holds(entries, j, key);
    }
  }

  /** The keys of a context are the persistent keys under which something can be kept. */
  lemma ContextKeys(entries: Entries, key: Text)
    ensures key in KeySet(SanitizeContext(Obj(entries))) <==> Persisted(key) && exists i :: Holds(entries, i, key)
  {
    hide Persisted, Sanitize;
    var kept := SanitizeContext(Obj(entries));
    ContextKeepsLast(entries);
    KeySetIff(kept, key);
    if i :| Holds(entries, i, key) {
      var last, v := LastThatHolds(entries, i, key);
      assert HoldsLast(entries, last, (key, v));
    }
    if e :| e in kept && e.0 == key {
      var i :| HoldsLast(entries, i, e);
      assert Holds(entries, i, key);
    }
  }

  lemma {:induction false} KeySetIff(entries: Entries, key: Text)
    ensures key in KeySet(entries) <==> exists e :: e in entries && e.0 == key
  {
    if entries != [] {
      KeySetIff(entries[1..], key);
      assert entries == [entries[0]] + entries[1..];
      assert entries[0] in entries;
    }
  }
}
