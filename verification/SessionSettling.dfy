/** Exactly when sanitising once is enough: which texts and keys must go in for a second pass to
    change nothing. */
module SessionSettling {
  import opened Options
  import opened TextSanitizer
  import opened SessionSanitizer

  /** The cut of the text falls right after a blank. */
  predicate CutAfterBlank(t: Text, maxLength: nat)
    requires maxLength > 0
  {
    |Normal(t)| > maxLength && Normal(t)[maxLength - 1] == BLANK
  }

  lemma CleanUnlessCutAfterBlank(t: Text, maxLength: nat)
    requires maxLength > 0
    ensures Clean(SafeText(t, maxLength)) <==> !CutAfterBlank(t, maxLength)
  {
    NormalIsClean(t);
    SafeTextIsTidy(t, maxLength);
  }

  /** No text and no key that is kept of the value is cut right after a blank. */
  predicate SettlesAtOnce(v: Value, depth: nat)
    requires depth <= MAX_VALUE_DEPTH + 1
    decreases MAX_VALUE_DEPTH + 1 - depth, 0
  {
    depth <= MAX_VALUE_DEPTH ==>
      match v
      case Str(text) => !CutAfterBlank(text, MAX_TEXT)
      case Arr(items) => forall item :: item in First(items, MAX_ARRAY_ITEMS) ==> SettlesAtOnce(item, depth + 1)
      case Obj(entries) => EntriesSettle(First(entries, MAX_OBJECT_ENTRIES), depth + 1, {})
      case _ => true
  }

  /** The same of the entries, but for those that an entry of the same kept key replaces: one further
      back, or one whose key is in `later`. */
  predicate EntriesSettle(entries: Entries, depth: nat, later: set<Text>)
    requires depth <= MAX_VALUE_DEPTH + 1
    decreases MAX_VALUE_DEPTH + 1 - depth, 1 + |entries|
  {
    entries == [] ||
    var (rawKey, item) := entries[|entries| - 1];
    var key, init := SafeText(rawKey, MAX_KEY), entries[..|entries| - 1];
    if KeepsKey(key) && Sanitize(item, depth).Some? then
      && (key !in later ==> !CutAfterBlank(rawKey, MAX_KEY) && SettlesAtOnce(item, depth))
      && EntriesSettle(init, depth, later + {key})
    else EntriesSettle(init, depth, later)
  }

  /** The same of the entries of a context, whose keys are kept as they are. */
  predicate ContextSettles(entries: Entries, later: set<Text>) {
    entries == [] ||
    var (key, item) := entries[|entries| - 1];
    var init := entries[..|entries| - 1];
    if Persisted(key) && Sanitize(item, 0).Some?
    then (key !in later ==> SettlesAtOnce(item, 0)) && ContextSettles(init, later + {key})
    else ContextSettles(init, later)
  }

  // ---------------------------------------------------------------- what the first pass leaves

  lemma {:induction false} PutMembers(entries: Entries, key: Text, value: Value, e: (Text, Value))
    requires DistinctKeys(entries)
    ensures e in Put(entries, key, value) <==> e == (key, value) || (e in entries && e.0 != key)
  {
    if entries != [] {
      KeysOfMembers(entries[1..], e);
      PutMembers(entries[1..], key, value, e);
      assert e in entries <==> e == entries[0] || e in entries[1..];
      var rest := if entries[0].0 == key then entries[1..] else Put(entries[1..], key, value);
      var first := if entries[0].0 == key then (key, value) else entries[0];
      assert Put(entries, key, value) == [first] + rest;
      assert e in [first] + rest <==> e == first || e in rest;
    }
  }

  lemma {:induction false} KeysOfMembers(entries: Entries, e: (Text, Value))
    ensures e in entries ==> e.0 in KeySet(entries)
  {
    if entries != [] { KeysOfMembers(entries[1..], e); }
  }

  /** The sanitised value is settled if and only if nothing kept of the value is cut after a blank. */
  lemma {:induction false} SettledIff(v: Value, depth: nat)
    requires depth <= MAX_VALUE_DEPTH + 1
    ensures Sanitize(v, depth).None? ==> SettlesAtOnce(v, depth)
    ensures Sanitize(v, depth).Some? ==>
              (SettlesAtOnce(v, depth) <==> Kept(Sanitize(v, depth).value, depth, true))
    decreases MAX_VALUE_DEPTH + 1 - depth, 1
  {
    if depth <= MAX_VALUE_DEPTH && v.Arr? {
      hide SettlesAtOnce, Kept;
      ArraySettledIff(v.items, depth);
    } else if depth <= MAX_VALUE_DEPTH && v.Obj? {
      hide SettlesAtOnce, Kept;
      ObjectSettledIff(v.entries, depth);
    } else if v.Str? {
      LeafSettledIff(v.text, depth);
    }
  }

  lemma LeafSettledIff(text: Text, depth: nat)
    requires depth <= MAX_VALUE_DEPTH + 1
    ensures SettlesAtOnce(Str(text), depth)
        <==> depth > MAX_VALUE_DEPTH || Kept(Str(SafeText(text, MAX_TEXT)), depth, true)
  {
    hide SafeText, CutAfterBlank, Clean, Tidy;
    SafeTextIsTidy(text, MAX_TEXT);
    CleanUnlessCutAfterBlank(text, MAX_TEXT);
  }

  lemma {:induction false} ArraySettledIff(items: seq<Value>, depth: nat)
    requires depth <= MAX_VALUE_DEPTH
    ensures SettlesAtOnce(Arr(items), depth)
        <==> Kept(Arr(SanitizeItems(First(items, MAX_ARRAY_ITEMS), depth + 1)), depth, true)
    decreases MAX_VALUE_DEPTH + 1 - depth, 0
  {
    hide SanitizeItems;
    ItemsKept(First(items, MAX_ARRAY_ITEMS), depth + 1);
    ItemsSettledIff(First(items, MAX_ARRAY_ITEMS), depth + 1);
  }

  lemma {:induction false} ObjectSettledIff(entries: Entries, depth: nat)
    requires depth <= MAX_VALUE_DEPTH
    ensures SettlesAtOnce(Obj(entries), depth)
        <==> Kept(Obj(SanitizeEntries(First(entries, MAX_OBJECT_ENTRIES), depth + 1)), depth, true)
    decreases MAX_VALUE_DEPTH + 1 - depth, 0
  {
    hide SanitizeEntries, EntriesSettle, DistinctKeys, KeyFits;
    OnePassEntries(First(entries, MAX_OBJECT_ENTRIES), depth + 1);
    EntriesSettledIff(First(entries, MAX_OBJECT_ENTRIES), depth + 1, {});
  }

  lemma {:induction false} ItemsSettledIff(items: seq<Value>, depth: nat)
    requires depth <= MAX_VALUE_DEPTH + 1
    ensures (forall item :: item in items ==> SettlesAtOnce(item, depth))
        <==> forall kept :: kept in SanitizeItems(items, depth) ==> Kept(kept, depth, true)
    decreases MAX_VALUE_DEPTH + 1 - depth, 3 + |items|
  {
    hide SettlesAtOnce, Kept, Sanitize;
    if items != [] {
      var init, last := items[..|items| - 1], items[|items| - 1];
      ItemsSettledIff(init, depth);
      SettledIff(last, depth);
      assert items == init + [last];
    }
  }

  /** An entry of an object that a first pass has settled. */
  predicate EntrySettled(e: (Text, Value), depth: nat) {
    KeyFits(e.0, true) && Kept(e.1, depth, true)
  }

  lemma {:induction false} EntriesSettledIff(entries: Entries, depth: nat, later: set<Text>)
    requires depth <= MAX_VALUE_DEPTH + 1
    ensures EntriesSettle(entries, depth, later)
        <==> forall e :: e in SanitizeEntries(entries, depth) && e.0 !in later ==> EntrySettled(e, depth)
    decreases MAX_VALUE_DEPTH + 1 - depth, 3 + |entries|
  {
    hide Sanitize, Kept, SettlesAtOnce, KeyFits, EntrySettled, Put, DistinctKeys, SafeText, CutAfterBlank, KeepsKey;
    if entries != [] {
      var init := entries[..|entries| - 1];
      var (rawKey, item) := entries[|entries| - 1];
      var key, kept := SafeText(rawKey, MAX_KEY), Sanitize(item, depth);
      OnePassEntries(init, depth);
      if KeepsKey(key) && kept.Some? {
        EntriesSettledIff(init, depth, later + {key});
        EntrySettledIff(rawKey, item, depth);
        forall e ensures e in Put(SanitizeEntries(init, depth), key, kept.value)
                     <==> e == (key, kept.value) || (e in SanitizeEntries(init, depth) && e.0 != key)
        {
          PutMembers(SanitizeEntries(init, depth), key, kept.value, e);
        }
      } else {
        EntriesSettledIff(init, depth, later);
      }
    }
  }

  lemma {:induction false} EntrySettledIff(rawKey: Text, item: Value, depth: nat)
    requires depth <= MAX_VALUE_DEPTH + 1
    requires KeepsKey(SafeText(rawKey, MAX_KEY)) && Sanitize(item, depth).Some?
    ensures EntrySettled((SafeText(rawKey, MAX_KEY), Sanitize(item, depth).value), depth)
        <==> !CutAfterBlank(rawKey, MAX_KEY) && SettlesAtOnce(item, depth)
    decreases MAX_VALUE_DEPTH + 1 - depth, 2
  {
    hide Sanitize, Kept, SettlesAtOnce, SafeText, CutAfterBlank, KeepsKey, Clean, Tidy;
    SafeTextIsTidy(rawKey, MAX_KEY);
    CleanUnlessCutAfterBlank(rawKey, MAX_KEY);
    SettledIff(item, depth);
  }

  lemma {:induction false} ContextSettledIff(entries: Entries, later: set<Text>)
    ensures ContextSettles(entries, later)
        <==> forall e :: e in ContextEntries(entries) && e.0 !in later ==> Kept(e.1, 0, true)
  {
    hide Sanitize, Kept, SettlesAtOnce, Put, DistinctKeys, Persisted;
    if entries != [] {
      var init := entries[..|entries| - 1];
      var (key, item) := entries[|entries| - 1];
      var kept := Sanitize(item, 0);
      ContextOnePass(init);
      if Persisted(key) && kept.Some? {
        ContextSettledIff(init, later + {key});
        SettledIff(item, 0);
        forall e ensures e in Put(ContextEntries(init), key, kept.value)
                     <==> e == (key, kept.value) || (e in ContextEntries(init) && e.0 != key)
        {
          PutMembers(ContextEntries(init), key, kept.value, e);
        }
      } else {
        ContextSettledIff(init, later);
      }
    }
  }

  // ---------------------------------------------------------------- when one pass is enough

  /** Sanitising a value once is enough if and only if nothing that is kept of it is cut after a blank. */
  lemma OnePassSettlesIff(v: Value)
    requires Sanitize(v, 0).Some?
    ensures Sanitize(Sanitize(v, 0).value, 0) == Sanitize(v, 0) <==> SettlesAtOnce(v, 0)
  {
    hide Sanitize, Kept, SettlesAtOnce;
    var once := Sanitize(v, 0).value;
    OnePassKeeps(v, 0);
    SettledIff(v, 0);
    SecondPassSettles(once, 0);
    if Kept(once, 0, true) { SettledStays(once, 0); }
  }

  /** Sanitising a context once is enough if and only if nothing that is kept of it is cut after a blank. */
  lemma ContextSettlesInOneIff(v: Value)
    ensures
      var once := SanitizeContext(v);
      SanitizeContext(Obj(once)) == once <==> ContextSettles(if v.Obj? then v.entries else [], {})
  {
    hide ContextEntries, Kept, ContextSettles, KeySet, DistinctKeys;
    var entries := if v.Obj? then v.entries else [];
    var once := SanitizeContext(v);
    EmptyContext();
    ContextOnePass(entries);
    ContextSettledIff(entries, {});
    ContextSettlesInTwo(v);
    if ContextSettles(entries, {}) { ContextSettled(once); }
  }

  lemma EmptyContext()
    ensures ContextEntries([]) == []
  {
  }
}
