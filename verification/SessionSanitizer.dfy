/** What may be kept of an onboarding session: values, contexts and capabilities, sanitised. */
module SessionSanitizer {
  import opened Options
  import opened TextSanitizer

  const MAX_ARRAY_ITEMS := 60
  const MAX_OBJECT_ENTRIES := 80
  const MAX_VALUE_DEPTH := 5
  const MAX_TEXT := 800
  const MAX_KEY := 100
  const MAX_CAPABILITY := 120

  type Entries = seq<(Text, Value)>

  /** A value of the page. `Other` stands for what is neither null nor text, number, boolean, array
      or plain object; an object is its entries in order. */
  datatype Value =
    | Other
    | Null
    | Bool(b: bool)
    | Number(finite: bool, n: real)
    | Str(text: Text)
    | Arr(items: seq<Value>)
    | Obj(entries: seq<(Text, Value)>)

  function Units(s: string): Text {
    seq(|s|, i requires 0 <= i < |s| => (s[i] as int % 0x10000) as CodeUnit)
  }

  predicate Blocked(key: Text) {
    key == Units("__proto__") || key == Units("constructor") || key == Units("prototype")
  }

  function First<T>(s: seq<T>, n: nat): seq<T> {
    if |s| <= n then s else s[..n]
  }

  /** Assigning a property: an existing key keeps its place. */
  function Put(entries: Entries, key: Text, value: Value): Entries {
    if entries == [] then [(key, value)]
    else if entries[0].0 == key then [(key, value)] + entries[1..]
    else [entries[0]] + Put(entries[1..], key, value)
  }

  predicate KeepsKey(key: Text) {
    key != [] && !Blocked(key)
  }

  /** What is kept of a value at a depth; the bound on the depth ends the recursion. */
  function Sanitize(v: Value, depth: nat): Option<Value>
    requires depth <= MAX_VALUE_DEPTH + 1
    decreases MAX_VALUE_DEPTH + 1 - depth, 0
  {
    if v.Null? then Some(Null)
    else if depth > MAX_VALUE_DEPTH then None
    else match v
      case Str(text) => Some(Str(SafeText(text, MAX_TEXT)))
      case Number(finite, n) => Some(if finite then v else Null)
      case Bool(_) => Some(v)
      case Arr(items) => Some(Arr(SanitizeItems(First(items, MAX_ARRAY_ITEMS), depth + 1)))
      case Obj(entries) => Some(Obj(SanitizeEntries(First(entries, MAX_OBJECT_ENTRIES), depth + 1)))
      case Other => None
  }

  function SanitizeItems(items: seq<Value>, depth: nat): seq<Value>
    requires depth <= MAX_VALUE_DEPTH + 1
    decreases MAX_VALUE_DEPTH + 1 - depth, 1 + |items|
  {
    if items == [] then []
    else
      var init := SanitizeItems(items[..|items| - 1], depth);
      var last := Sanitize(items[|items| - 1], depth);
      if last.Some? then init + [last.value] else init
  }

  function SanitizeEntries(entries: Entries, depth: nat): Entries
    requires depth <= MAX_VALUE_DEPTH + 1
    decreases MAX_VALUE_DEPTH + 1 - depth, 1 + |entries|
  {
    if entries == [] then []
    else
      var init := SanitizeEntries(entries[..|entries| - 1], depth);
      var (rawKey, item) := entries[|entries| - 1];
      var key := SafeText(rawKey, MAX_KEY);
      var kept := Sanitize(item, depth);
      if KeepsKey(key) && kept.Some? then Put(init, key, kept.value) else init
  }

  // ---------------------------------------------------------------- the loops of the source

  method SanitizeValue(value: Value, depth: nat) returns (r: Option<Value>)
    requires depth <= MAX_VALUE_DEPTH + 1
    ensures r == Sanitize(value, depth)
    decreases MAX_VALUE_DEPTH + 1 - depth, 0
  {
    if depth > MAX_VALUE_DEPTH || value.Null? {
      return if value.Null? then Some(Null) else None;
    }
    match value
    case Str(text) => return Some(Str(SafeText(text, MAX_TEXT)));
    case Number(finite, _) => return Some(if finite then value else Null);
    case Bool(_) => return Some(value);
    case Other => return None;
    case Arr(items) =>
      var result := SanitizeArray(First(items, MAX_ARRAY_ITEMS), depth + 1);
      return Some(Arr(result));
    case Obj(entries) =>
      var result := SanitizeObject(First(entries, MAX_OBJECT_ENTRIES), depth + 1);
      return Some(Obj(result));
  }

  method SanitizeArray(items: seq<Value>, depth: nat) returns (result: seq<Value>)
    requires depth <= MAX_VALUE_DEPTH + 1
    ensures result == SanitizeItems(items, depth)
    decreases MAX_VALUE_DEPTH + 1 - depth, 1
  {
    result := [];
    var i := 0;
    while i < |items|
      invariant 0 <= i <= |items|
      invariant result == SanitizeItems(items[..i], depth)
    {
      var item := SanitizeValue(items[i], depth);
      if item.Some? {
        result := result + [item.value];
      }
      assert items[..i + 1][..i] == items[..i];
      i := i + 1;
    }
    assert items[..i] == items;
  }

  method SanitizeObject(entries: Entries, depth: nat) returns (result: Entries)
    requires depth <= MAX_VALUE_DEPTH + 1
    ensures result == SanitizeEntries(entries, depth)
    decreases MAX_VALUE_DEPTH + 1 - depth, 1
  {
    result := [];
    var i := 0;
    while i < |entries|
      invariant 0 <= i <= |entries|
      invariant result == SanitizeEntries(entries[..i], depth)
    {
      var (rawKey, item) := entries[i];
      var key := SafeText(rawKey, MAX_KEY);
      assert entries[..i + 1][..i] == entries[..i];
      i := i + 1;
      if key == [] || Blocked(key) {
        continue;
      }
      var sanitized := SanitizeValue(item, depth);
      if sanitized.Some? {
        result := Put(result, key, sanitized.value);
      }
    }
    assert entries[..i] == entries;
  }

  // ---------------------------------------------------------------- what one and two passes leave

  function KeySet(entries: Entries): set<Text> {
    if entries == [] then {} else {entries[0].0} + KeySet(entries[1..])
  }

  predicate DistinctKeys(entries: Entries) {
    entries == [] || (entries[0].0 !in KeySet(entries[1..]) && DistinctKeys(entries[1..]))
  }

  predicate TextFits(t: Text, maxLength: nat, clean: bool) {
    |t| <= maxLength && Tidy(t) && (clean ==> Clean(t))
  }

  predicate KeyFits(key: Text, clean: bool) {
    KeepsKey(key) && TextFits(key, MAX_KEY, clean)
  }

  /** A value that respects every limit from a depth on; when `clean`, its texts and keys are settled. */
  predicate Kept(v: Value, depth: nat, clean: bool)
    decreases v
  {
    match v
    case Other => false
    case Null => true
    case Bool(_) => depth <= MAX_VALUE_DEPTH
    case Number(finite, _) => depth <= MAX_VALUE_DEPTH && finite
    case Str(text) => depth <= MAX_VALUE_DEPTH && TextFits(text, MAX_TEXT, clean)
    case Arr(items) =>
      && depth <= MAX_VALUE_DEPTH && |items| <= MAX_ARRAY_ITEMS
      && forall item :: item in items ==> Kept(item, depth + 1, clean)
    case Obj(entries) =>
      && depth <= MAX_VALUE_DEPTH && |entries| <= MAX_OBJECT_ENTRIES && DistinctKeys(entries)
      && forall e :: e in entries ==> KeyFits(e.0, clean) && Kept(e.1, depth + 1, clean)
  }

  predicate EntriesKept(entries: Entries, depth: nat, clean: bool) {
    DistinctKeys(entries) && forall e :: e in entries ==> KeyFits(e.0, clean) && Kept(e.1, depth, clean)
  }

  /** Assigning a property adds its key and nothing else, and keeps keys distinct. */
  lemma {:induction false} PutKeeps(entries: Entries, key: Text, value: Value)
    ensures
      var r := Put(entries, key, value);
      && |r| <= |entries| + 1
      && KeySet(r) == KeySet(entries) + {key}
      && (forall e :: e in r ==> e == (key, value) || e in entries)
      && (DistinctKeys(entries) ==> DistinctKeys(r))
      && (key !in KeySet(entries) ==> r == entries + [(key, value)])
  {
    if entries != [] {
      PutKeeps(entries[1..], key, value);
      var r := Put(entries, key, value);
      assert r[1..] == if entries[0].0 == key then entries[1..] else Put(entries[1..], key, value);
    }
  }

  lemma {:induction false} AppendedKeys(entries: Entries, e: (Text, Value))
    ensures KeySet(entries + [e]) == KeySet(entries) + {e.0}
    ensures DistinctKeys(entries + [e]) <==> DistinctKeys(entries) && e.0 !in KeySet(entries)
  {
    if entries == [] {
      assert [e][1..] == [] && KeySet([e]) == {e.0};
    } else {
      AppendedKeys(entries[1..], e);
      assert (entries + [e])[1..] == entries[1..] + [e];
    }
  }

  // ---------------------------------------------------------------- one pass keeps within the limits

  /** What a pass leaves respects the limits on depth, arrays, objects, texts and keys. */
  lemma {:induction false} OnePassKeeps(v: Value, depth: nat)
    requires depth <= MAX_VALUE_DEPTH + 1
    ensures Sanitize(v, depth).Some? ==> Kept(Sanitize(v, depth).value, depth, false)
    decreases MAX_VALUE_DEPTH + 1 - depth, 0
  {
    if depth <= MAX_VALUE_DEPTH {
      match v
      case Str(text) => SafeTextIsTidy(text, MAX_TEXT);
      case Arr(items) => ItemsKept(First(items, MAX_ARRAY_ITEMS), depth + 1);
      case Obj(entries) => OnePassEntries(First(entries, MAX_OBJECT_ENTRIES), depth + 1);
      case _ =>
    }
  }

  lemma {:induction false} ItemsKept(items: seq<Value>, depth: nat)
    requires depth <= MAX_VALUE_DEPTH + 1
    ensures |SanitizeItems(items, depth)| <= |items|
    ensures forall item :: item in SanitizeItems(items, depth) ==> Kept(item, depth, false)
    decreases MAX_VALUE_DEPTH + 1 - depth, 1 + |items|
  {
    if items != [] {
      ItemsKept(items[..|items| - 1], depth);
      OnePassKeeps(items[|items| - 1], depth);
    }
  }

  lemma {:induction false} OnePassEntries(entries: Entries, depth: nat)
    requires depth <= MAX_VALUE_DEPTH + 1
    ensures |SanitizeEntries(entries, depth)| <= |entries| && EntriesKept(SanitizeEntries(entries, depth), depth, false)
    decreases MAX_VALUE_DEPTH + 1 - depth, 1 + |entries|
  {
    if entries != [] {
      var init := SanitizeEntries(entries[..|entries| - 1], depth);
      var (rawKey, item) := entries[|entries| - 1];
      OnePassEntries(entries[..|entries| - 1], depth);
      OnePassKeeps(item, depth);
      SafeTextIsTidy(rawKey, MAX_KEY);
      if Sanitize(item, depth).Some? {
        PutKeeps(init, SafeText(rawKey, MAX_KEY), Sanitize(item, depth).value);
      }
    }
  }

  // ---------------------------------------------------------------- a second pass settles

  /** A pass over kept values loses none of them and settles their texts and keys. */
  lemma {:induction false} SecondPassSettles(v: Value, depth: nat)
    requires depth <= MAX_VALUE_DEPTH + 1 && Kept(v, depth, false)
    ensures Sanitize(v, depth).Some? && Kept(Sanitize(v, depth).value, depth, true)
    decreases MAX_VALUE_DEPTH + 1 - depth, 0
  {
    match v
    case Str(text) => PassOnTidy(text, MAX_TEXT); SafeTextIsTidy(text, MAX_TEXT);
    case Arr(items) => SecondPassItems(items, depth + 1);
    case Obj(entries) => SecondPassEntries(entries, depth + 1);
    case _ =>
  }

  lemma {:induction false} SecondPassItems(items: seq<Value>, depth: nat)
    requires depth <= MAX_VALUE_DEPTH + 1 && forall item :: item in items ==> Kept(item, depth, false)
    ensures |SanitizeItems(items, depth)| == |items|
    ensures forall item :: item in SanitizeItems(items, depth) ==> Kept(item, depth, true)
    decreases MAX_VALUE_DEPTH + 1 - depth, 1 + |items|
  {
    if items != [] {
      SecondPassItems(items[..|items| - 1], depth);
      SecondPassSettles(items[|items| - 1], depth);
    }
  }

  lemma {:induction false} SecondPassEntries(entries: Entries, depth: nat)
    requires depth <= MAX_VALUE_DEPTH + 1 && forall e :: e in entries ==> KeyFits(e.0, false) && Kept(e.1, depth, false)
    ensures |SanitizeEntries(entries, depth)| <= |entries| && EntriesKept(SanitizeEntries(entries, depth), depth, true)
    decreases MAX_VALUE_DEPTH + 1 - depth, 1 + |entries|
  {
    if entries != [] {
      var init := SanitizeEntries(entries[..|entries| - 1], depth);
      var (rawKey, item) := entries[|entries| - 1];
      assert entries[|entries| - 1] in entries;
      SecondPassEntries(entries[..|entries| - 1], depth);
      SecondPassSettles(item, depth);
      PassOnTidy(rawKey, MAX_KEY);
      SafeTextIsTidy(rawKey, MAX_KEY);
      PutKeeps(init, SafeText(rawKey, MAX_KEY), Sanitize(item, depth).value);
    }
  }

  // ---------------------------------------------------------------- a third pass changes nothing

  lemma {:induction false} SettledStays(v: Value, depth: nat)
    requires depth <= MAX_VALUE_DEPTH + 1 && Kept(v, depth, true)
    ensures Sanitize(v, depth) == Some(v)
    decreases MAX_VALUE_DEPTH + 1 - depth, 0
  {
    hide SafeText, SanitizeItems, SanitizeEntries, DistinctKeys, KeyFits;
    match v
    case Str(text) => PassOnClean(text, MAX_TEXT);
    case Arr(items) => SettledItemsStay(items, depth + 1);
    case Obj(entries) => SettledEntriesStay(entries, depth + 1);
    case _ =>
  }

  lemma {:induction false} SettledItemsStay(items: seq<Value>, depth: nat)
    requires depth <= MAX_VALUE_DEPTH + 1 && forall item :: item in items ==> Kept(item, depth, true)
    ensures SanitizeItems(items, depth) == items
    decreases MAX_VALUE_DEPTH + 1 - depth, 1 + |items|
  {
    if items != [] {
      SettledItemsStay(items[..|items| - 1], depth);
      SettledStays(items[|items| - 1], depth);
    }
  }

  lemma {:induction false} SettledEntriesStay(entries: Entries, depth: nat)
    requires depth <= MAX_VALUE_DEPTH + 1 && EntriesKept(entries, depth, true)
    ensures SanitizeEntries(entries, depth) == entries
    decreases MAX_VALUE_DEPTH + 1 - depth, 1 + |entries|
  {
    if entries != [] {
      var init, last := entries[..|entries| - 1], entries[|entries| - 1];
      assert entries == init + [last] && last in entries;
      AppendedKeys(init, last);
      SettledEntriesStay(init, depth);
      SettledStays(last.1, depth);
      PassOnClean(last.0, MAX_KEY);
      PutKeeps(init, last.0, last.1);
    }
  }

  /** Sanitising a value three times is sanitising it twice. */
  lemma ThirdPassChangesNothing(v: Value)
    requires Sanitize(v, 0).Some?
    ensures
      var once := Sanitize(v, 0).value;
      var twice := Sanitize(once, 0);
      twice.Some? && Sanitize(twice.value, 0) == twice && Kept(once, 0, false) && Kept(twice.value, 0, true)
  {
    OnePassKeeps(v, 0);
    SecondPassSettles(Sanitize(v, 0).value, 0);
    SettledStays(Sanitize(Sanitize(v, 0).value, 0).value, 0);
  }

  // ---------------------------------------------------------------- contexts

  const PERSISTED_CONTEXT_KEYS: seq<string> := [
    "category", "specialty", "businessName", "objective", "audience", "businessLocation",
    "businessLocationCandidate", "businessLocationConfirmed", "businessVoiceDiscoveryReady",
    "businessRankingExplanationReady", "businessTutorialRouteReady", "businessDiscoveryResult",
    "businessAssistantResult", "businessRouteResult", "tutorialBusinessCandidate",
    "businessRecommendationResult", "tutorialBusinessProfile", "businessTutorialEventSummary",
    "businessDemoPromotion", "businessTutorialWorkspace", "businessCommercialCheckoutHandoff",
    "businessCommercialActivation"]

  predicate Persisted(key: Text) {
    exists name | name in PERSISTED_CONTEXT_KEYS :: Units(name) == key
  }

  function ContextEntries(entries: Entries): Entries {
    if entries == [] then []
    else
      var init := ContextEntries(entries[..|entries| - 1]);
      var (key, item) := entries[|entries| - 1];
      var kept := Sanitize(item, 0);
      if Persisted(key) && kept.Some? then Put(init, key, kept.value) else init
  }

  /** The context that is kept of a value; what is no object leaves an empty one. */
  function SanitizeContext(v: Value): Entries {
    if v.Obj? then ContextEntries(v.entries) else []
  }

  method SanitizeContextOf(value: Value) returns (context: Entries)
    ensures context == SanitizeContext(value)
  {
    if !value.Obj? {
      return [];
    }
    context := [];
    var i := 0;
    while i < |value.entries|
      invariant 0 <= i <= |value.entries|
      invariant context == ContextEntries(value.entries[..i])
    {
      var (key, item) := value.entries[i];
      assert value.entries[..i + 1][..i] == value.entries[..i];
      i := i + 1;
      if !Persisted(key) {
        continue;
      }
      var sanitized := SanitizeValue(item, 0);
      if sanitized.Some? {
        context := Put(context, key, sanitized.value);
      }
    }
    assert value.entries[..i] == value.entries;
  }

  predicate ContextKept(entries: Entries, clean: bool) {
    DistinctKeys(entries) && forall e :: e in entries ==> Persisted(e.0) && Kept(e.1, 0, clean)
  }

  lemma {:induction false} ContextOnePass(entries: Entries)
    ensures ContextKept(ContextEntries(entries), false)
  {
    if entries != [] {
      var (key, item) := entries[|entries| - 1];
      ContextOnePass(entries[..|entries| - 1]);
      OnePassKeeps(item, 0);
      if Sanitize(item, 0).Some? {
        PutKeeps(ContextEntries(entries[..|entries| - 1]), key, Sanitize(item, 0).value);
      }
    }
  }

  /** A second pass settles the values of a kept context and keeps its keys. */
  lemma {:induction false} ContextSecondPass(entries: Entries)
    requires ContextKept(entries, false)
    ensures ContextKept(ContextEntries(entries), true) && KeySet(ContextEntries(entries)) == KeySet(entries)
  {
    if entries != [] {
      var init, last := entries[..|entries| - 1], entries[|entries| - 1];
      assert entries == init + [last] && last in entries;
      AppendedKeys(init, last);
      ContextSecondPass(init);
      SecondPassSettles(last.1, 0);
      PutKeeps(ContextEntries(init), last.0, Sanitize(last.1, 0).value);
    }
  }

  lemma {:induction false} ContextSettled(entries: Entries)
    requires ContextKept(entries, true)
    ensures ContextEntries(entries) == entries
  {
    hide Sanitize, Kept, Persisted;
    if entries != [] {
      var init, last := entries[..|entries| - 1], entries[|entries| - 1];
      assert entries == init + [last] && last in entries;
      AppendedKeys(init, last);
      ContextSettled(init);
      SettledStays(last.1, 0);
      PutKeeps(init, last.0, last.1);
    }
  }

  /** Sanitising a context three times is sanitising it twice. */
  lemma ContextSettlesInTwo(v: Value)
    ensures
      var once := SanitizeContext(v);
      var twice := SanitizeContext(Obj(once));
      && SanitizeContext(Obj(twice)) == twice
      && ContextKept(once, false) && ContextKept(twice, true) && KeySet(twice) == KeySet(once)
  {
    ContextOnePass(if v.Obj? then v.entries else []);
    ContextSecondPass(SanitizeContext(v));
    ContextSettled(SanitizeContext(Obj(SanitizeContext(v))));
  }

  /** A context that the first pass cuts after a blank, so that the second changes it again. */
  lemma SecondPassChangesAContext()
    ensures
      var objective := Units("objective");
      var once := SanitizeContext(Obj([(objective, Str(WordBeforeCut(MAX_TEXT)))]));
      SanitizeContext(Obj(once)) == [(objective, Str(WordBeforeCut(MAX_TEXT)[..MAX_TEXT - 1]))] != once
  {
    OnePassIsNotEnough(MAX_TEXT);
    hide SafeText, WordBeforeCut;
    var objective, text := Units("objective"), WordBeforeCut(MAX_TEXT);
    assert "objective" in PERSISTED_CONTEXT_KEYS;
    assert Persisted(objective);
    OneEntry(objective, Str(text));
    OneEntry(objective, Str(SafeText(text, MAX_TEXT)));
    assert |text[..MAX_TEXT]| == MAX_TEXT;
  }

  lemma OneEntry(key: Text, v: Value)
    requires Persisted(key) && Sanitize(v, 0).Some?
    ensures SanitizeContext(Obj([(key, v)])) == [(key, Sanitize(v, 0).value)]
  {
    assert [(key, v)][..0] == [];
    assert ContextEntries([(key, v)][..0]) == [];
  }

  // ---------------------------------------------------------------- capabilities

  function NameOf(v: Value): Text {
    if v.Str? then SafeText(v.text, MAX_CAPABILITY) else []
  }

  /** The names of the items that have one, each where it comes first. */
  function Names(items: seq<Value>): seq<Text> {
    if items == [] then []
    else
      var init, name := Names(items[..|items| - 1]), NameOf(items[|items| - 1]);
      if name == [] || name in init then init else init + [name]
  }

  function SanitizeCapabilities(v: Value): seq<Text> {
    if v.Arr? then First(Names(v.items), MAX_ARRAY_ITEMS) else []
  }

  function AsList(names: seq<Text>): Value {
    Arr(seq(|names|, i requires 0 <= i < |names| => Str(names[i])))
  }

  predicate NamesKept(names: seq<Text>, clean: bool) {
    && (forall i :: 0 <= i < |names| ==> names[i] != [] && TextFits(names[i], MAX_CAPABILITY, clean))
    && forall i, j :: 0 <= i < j < |names| ==> names[i] != names[j]
  }

  lemma {:induction false} NamesOnePass(items: seq<Value>)
    ensures NamesKept(Names(items), false)
  {
    if items != [] {
      NamesOnePass(items[..|items| - 1]);
      var last := items[|items| - 1];
      if last.Str? {
        SafeTextIsTidy(last.text, MAX_CAPABILITY);
      }
    }
  }

  lemma {:induction false} NamesSecondPass(names: seq<Text>)
    requires NamesKept(names, false)
    ensures NamesKept(Names(AsList(names).items), true) && |Names(AsList(names).items)| <= |names|
  {
    if names != [] {
      var n := |names| - 1;
      assert AsList(names).items[..n] == AsList(names[..n]).items;
      NamesSecondPass(names[..n]);
      PassOnTidy(names[n], MAX_CAPABILITY);
      SafeTextIsTidy(names[n], MAX_CAPABILITY);
    }
  }

  lemma {:induction false} NamesSettled(names: seq<Text>)
    requires NamesKept(names, true)
    ensures Names(AsList(names).items) == names
  {
    if names != [] {
      var n := |names| - 1;
      assert AsList(names).items[..n] == AsList(names[..n]).items;
      NamesSettled(names[..n]);
      PassOnClean(names[n], MAX_CAPABILITY);
      assert names == names[..n] + [names[n]];
    }
  }

  /** Sanitising capabilities three times is sanitising them twice, and what is kept are at most
      sixty distinct names. */
  lemma CapabilitiesSettleInTwo(v: Value)
    ensures
      var once := SanitizeCapabilities(v);
      var twice := SanitizeCapabilities(AsList(once));
      && SanitizeCapabilities(AsList(twice)) == twice
      && NamesKept(once, false) && NamesKept(twice, true) && |twice| <= |once| <= MAX_ARRAY_ITEMS
  {
    var once := SanitizeCapabilities(v);
    if v.Arr? {
      NamesOnePass(v.items);
    }
    NamesSecondPass(once);
    NamesSettled(SanitizeCapabilities(AsList(once)));
  }
}
