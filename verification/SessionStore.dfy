/** The browser's store of an onboarding session: saving it, and restoring it while it is valid. */
module SessionStore {
  import opened Options
  import opened TextSanitizer
  import opened SessionSanitizer
  import opened SessionContents

  const SESSION_VERSION := 2
  const TTL_MS := 7 * 24 * 60 * 60 * 1000
  const MAX_CLOCK_SKEW_MS := 5 * 60 * 1000
  const MAX_LANGUAGE := 20

  datatype Status = Active | Paused | Completed | Cancelled

  /** A step of the onboarding; the first one is where a session starts. */
  datatype Step = Welcome | Later(name: string)

  datatype Session = Session(
    status: Status,
    step: Step,
    language: Text,
    context: Entries,
    completed: seq<Text>,
    skipped: seq<Text>,
    createdAt: int,
    updatedAt: int,
    expiresAt: int)

  /** A stored record, as it is read back: a field that does not hold what it should is empty. */
  datatype Persisted = Persisted(
    version: int,
    status: Option<Status>,
    step: Option<Step>,
    language: Value,
    context: Value,
    completed: Value,
    skipped: Value,
    createdAt: Option<int>,
    updatedAt: Option<int>,
    expiresAt: Option<int>)

  /** What the storage holds under the session's key. `Unreadable` is text that is no record. */
  datatype Stored = Absent | Unreadable | Stored(record: Persisted)

  predicate Resumable(status: Status) {
    status == Active || status == Paused
  }

  function LanguageOf(v: Value): Text {
    var text := if v.Str? then SafeText(v.text, MAX_LANGUAGE) else [];
    if text == [] then Units("pt") else text
  }

  function Abs(x: int): int {
    if x < 0 then -x else x
  }

  /** When a record may be resumed at a time. */
  predicate Acceptable(p: Persisted, now: int) {
    && p.version == SESSION_VERSION
    && p.status.Some? && Resumable(p.status.value)
    && p.step.Some?
    && p.createdAt.Some? && p.updatedAt.Some? && p.expiresAt.Some?
    && p.createdAt.value <= now + MAX_CLOCK_SKEW_MS
    && p.createdAt.value <= p.updatedAt.value <= now + MAX_CLOCK_SKEW_MS
    && Abs(p.expiresAt.value - (p.createdAt.value + TTL_MS)) <= 1000
    && now < p.createdAt.value + TTL_MS
  }

  function Restore(p: Persisted, now: int): Option<Session> {
    if !Acceptable(p, now) then None
    else
      var created, updated := p.createdAt.value, p.updatedAt.value;
      var moved := p.step.value != Welcome || p.status.value == Paused;
      Some(Session(p.status.value, p.step.value,
                   LanguageOf(Str(LanguageOf(p.language))),
                   SanitizeContext(p.context),
                   SanitizeCapabilities(p.completed),
                   SanitizeCapabilities(p.skipped),
                   created, if moved then updated else created, created + TTL_MS))
  }

  function Save(s: Session): Option<Persisted> {
    if !Resumable(s.status) then None
    else Some(Persisted(SESSION_VERSION, Some(s.status), Some(s.step),
                        Str(LanguageOf(Str(s.language))),
                        Obj(SanitizeContext(Obj(s.context))),
                        AsList(SanitizeCapabilities(AsList(s.completed))),
                        AsList(SanitizeCapabilities(AsList(s.skipped))),
                        Some(s.createdAt), Some(s.updatedAt), Some(s.expiresAt)))
  }

  // ---------------------------------------------------------------- the store object

  class BusinessOnboardingBrowserSessionStore {
    var stored: Stored

    constructor (stored: Stored)
      ensures this.stored == stored
    {
      this.stored := stored;
    }

    /** A record that cannot be restored is cleared; one that can be stays. */
    method Load(now: int) returns (restored: Option<Session>)
      modifies this
      ensures restored == if old(stored).Stored? then Restore(old(stored).record, now) else None
      ensures stored == if restored.Some? then old(stored) else Absent
    {
      if stored.Absent? {
        return None;
      }
      if stored.Unreadable? {
        stored := Absent;
        return None;
      }
      restored := Restore(stored.record, now);
      if restored.None? {
        stored := Absent;
      }
    }

    method Store(session: Session)
      modifies this
      ensures stored == if Save(session).Some? then Stored(Save(session).value) else Absent
    {
      if !Resumable(session.status) {
        stored := Absent;
        return;
      }
      stored := Stored(Save(session).value);
    }
  }

  // ---------------------------------------------------------------- round trips

  lemma LanguageSettles(v: Value)
    ensures
      var twice := LanguageOf(Str(LanguageOf(v)));
      LanguageOf(Str(twice)) == twice
  {
    var once := LanguageOf(v);
    if v.Str? {
      SafeTextIsTidy(v.text, MAX_LANGUAGE);
    }
    PortugueseIsClean();
    assert Tidy(once) && |once| <= MAX_LANGUAGE;
    PassOnTidy(once, MAX_LANGUAGE);
    SafeTextIsTidy(once, MAX_LANGUAGE);
    var twice := LanguageOf(Str(once));
    PassOnClean(twice, MAX_LANGUAGE);
  }

  lemma PortugueseIsClean()
    ensures Clean(Units("pt")) && |Units("pt")| == 2
  {
    assert Units("pt") == [112, 116];
  }

  /** Whatever the storage holds is restored exactly if it is a record of version 2 that is active or
      paused, names a step, was created and updated in that order and not in the future, has its own
      time to live, up to a second, and has not expired. */
  lemma RestorableIff(p: Persisted, now: int)
    ensures Restore(p, now).Some? <==>
            && p.version == 2 && p.status in {Some(Active), Some(Paused)} && p.step.Some?
            && p.createdAt.Some? && p.updatedAt.Some? && p.expiresAt.Some?
            && p.createdAt.value <= p.updatedAt.value <= now + 300000
            && -1000 <= p.expiresAt.value - p.createdAt.value - 604800000 <= 1000
            && now - p.createdAt.value < 604800000
  {
  }

  /** A saved session can be restored exactly while its times are in order: resumable, created and
      updated in that order and not in the future, with its own time to live, and not expired. */
  lemma SavedIsRestorableIff(s: Session, now: int)
    requires Resumable(s.status)
    ensures Restore(Save(s).value, now).Some?
        <==> && s.createdAt <= s.updatedAt <= now + MAX_CLOCK_SKEW_MS
             && Abs(s.expiresAt - s.createdAt - TTL_MS) <= 1000
             && now < s.createdAt + TTL_MS
  {
  }

  /** Being saved and restored settles a session: saving and restoring it again gives the same
      session and the same record, however often and whenever that happens. */
  lemma RestoredIsAFixedPoint(s: Session, now: int, later: int)
    requires Save(s).Some? && Restore(Save(s).value, now).Some?
    requires now <= later
    ensures
      var restored := Restore(Save(s).value, now).value;
      var record := Save(restored);
      && record.Some?
      && (Restore(record.value, later).Some? <==> later < s.createdAt + TTL_MS)
      && (Restore(record.value, later).Some? ==>
            Restore(record.value, later).value == restored && Save(Restore(record.value, later).value) == record)
  {
    ContextSettlesInTwo(Obj(s.context));
    CapabilitiesSettleInTwo(AsList(s.completed));
    CapabilitiesSettleInTwo(AsList(s.skipped));
    LanguageTwice(Str(s.language));
    hide SanitizeContext, SanitizeCapabilities, LanguageOf, AsList, ContextKept, NamesKept, KeySet, Units;
  }

  lemma LanguageTwice(v: Value)
    ensures
      var restored := LanguageOf(Str(LanguageOf(Str(LanguageOf(v)))));
      LanguageOf(Str(restored)) == restored
  {
    LanguageSettles(v);
  }

  /** A restored session never lives longer than its record: it expires seven days after its creation. */
  lemma RestoringExtendsNothing(p: Persisted, now: int)
    requires Restore(p, now).Some?
    ensures
      var s := Restore(p, now).value;
      && s.expiresAt == p.createdAt.value + TTL_MS && now < s.expiresAt
      && s.createdAt == p.createdAt.value && s.updatedAt <= p.updatedAt.value
      && ContextKept(s.context, false) && |s.completed| <= MAX_ARRAY_ITEMS && |s.skipped| <= MAX_ARRAY_ITEMS
  {
    ContextSettlesInTwo(p.context);
  }

  /** Nothing in the session has to be sanitised. */
  ghost predicate TidySession(s: Session) {
    && Clean(s.language) && 0 < |s.language| <= 20
    && ContextKept(s.context, true)
    && NamesKept(s.completed, true) && |s.completed| <= 60
    && NamesKept(s.skipped, true) && |s.skipped| <= 60
  }

  /** A tidy session comes back as it was saved, but that it expires seven days after its creation to
      the millisecond, and counts as updated when it was created if it is active at its first step. */
  lemma TidySessionComesBack(s: Session, now: int)
    requires Save(s).Some? && Restore(Save(s).value, now).Some? && TidySession(s)
    ensures
      Restore(Save(s).value, now).value
      == s.(expiresAt := s.createdAt + 7 * 24 * 60 * 60 * 1000,
            updatedAt := if s.step.Welcome? && s.status.Active? then s.createdAt else s.updatedAt)
  {
    ContextSettled(s.context);
    NamesSettled(s.completed);
    NamesSettled(s.skipped);
    PassOnClean(s.language, MAX_LANGUAGE);
    hide ContextKept, NamesKept, ContextEntries, Names, SafeText, Clean;
  }

  /** Of any session its place in the onboarding comes back, a language, and what is kept in two
      passes under each persistent key that holds something to keep. */
  lemma RestoredKeepsWhatWasSaved(s: Session, now: int, key: Text)
    requires Save(s).Some? && Restore(Save(s).value, now).Some?
    ensures
      var restored := Restore(Save(s).value, now).value;
      && restored.status == s.status && restored.step == s.step && restored.createdAt == s.createdAt
      && restored.language != [] && (Words(s.language) == [] ==> restored.language == [112, 116])
      && (key in KeySet(restored.context) <==> SessionSanitizer.Persisted(key) && exists i :: Holds(s.context, i, key))
  {
    ContextSettlesInTwo(Obj(s.context));
    ContextKeys(s.context, key);
    PortugueseIsClean();
    hide SanitizeContext, ContextKept, LanguageOf, SanitizeCapabilities, Holds, SessionSanitizer.Persisted;
    LanguageIsNamed(s.language);
  }

  lemma LanguageWithoutWords(language: Text)
    ensures Words(language) == [] ==> LanguageOf(Str(language)) == Units("pt")
  {
    NormalIff(language, []);
  }

  /** A language without words gives way to Portuguese, "pt". */
  lemma LanguageIsNamed(language: Text)
    ensures
      var restored := LanguageOf(Str(LanguageOf(Str(LanguageOf(Str(language))))));
      restored != [] && (Words(language) == [] ==> restored == [112, 116])
  {
    hide SafeText, Words, Clean;
    assert Units("pt") == [112, 116];
    PortugueseIsClean();
    PassOnClean(Units("pt"), MAX_LANGUAGE);
    LanguageWithoutWords(language);
  }
}
