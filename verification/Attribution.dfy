/** Which affiliate a sale is attributed to: evidence, attributions and the choice between them.

    Times are milliseconds; a time that comes in as text is an option, empty when the text is no
    UTC timestamp. */
module Attribution {
  import opened Options

  const DAY_MS := 86400000
  const ATTRIBUTION_WINDOW_DAYS := 30

  datatype Source = CheckoutCode | ServerReferral | PlatformLink | PlatformQr

  function Precedence(source: Source): nat {
    match source
    case CheckoutCode => 300
    case ServerReferral => 200
    case PlatformLink => 100
    case PlatformQr => 100
  }

  datatype Evidence = Evidence(
    id: string, affiliateId: string, programId: string, subjectId: string,
    source: Source, fingerprint: string, serverObservedAt: int, receivedAt: int)

  datatype EvidenceInput = EvidenceInput(
    id: string, affiliateId: string, programId: string, subjectId: string,
    source: Source, fingerprint: string, serverObservedAt: Option<int>, receivedAt: Option<int>,
    validatedByServer: bool)

  datatype Attribution = Attribution(
    id: string, affiliateId: string, programId: string, subjectId: string, evidenceId: string,
    fingerprint: string, source: Source, establishedAt: int, expiresAt: int)

  predicate IsSha256(s: string) {
    |s| == 64 && forall i :: 0 <= i < |s| ==> '0' <= s[i] <= '9' || 'a' <= s[i] <= 'f'
  }

  function CreateReferralEvidence(input: EvidenceInput): Option<Evidence> {
    if !input.validatedByServer then None
    else if !IsSha256(input.fingerprint) then None
    else if input.serverObservedAt.None? || input.receivedAt.None? then None
    else if input.receivedAt.value < input.serverObservedAt.value then None
    else Some(Evidence(input.id, input.affiliateId, input.programId, input.subjectId,
                       input.source, input.fingerprint, input.serverObservedAt.value, input.receivedAt.value))
  }

  function CreateAttribution(id: string, evidence: Evidence, now: Option<int>): Option<Attribution> {
    var expiresAt := evidence.serverObservedAt + ATTRIBUTION_WINDOW_DAYS * DAY_MS;
    if now.None? || now.value >= expiresAt then None
    else Some(Attribution(id, evidence.affiliateId, evidence.programId, evidence.subjectId, evidence.id,
                          evidence.fingerprint, evidence.source, evidence.serverObservedAt, expiresAt))
  }

  function ChooseAttribution(existing: Option<Attribution>, candidate: Attribution, locked: bool,
                             now: Option<int>): Option<Attribution>
  {
    if now.None? then None
    else if locked then existing
    else if now.value >= candidate.expiresAt then existing
    else if existing.None? || now.value >= existing.value.expiresAt then Some(candidate)
    else if Precedence(candidate.source) > Precedence(existing.value.source) then Some(candidate)
    else if Precedence(candidate.source) < Precedence(existing.value.source) then existing
    else if candidate.establishedAt > existing.value.establishedAt then Some(candidate)
    else existing
  }

  // ---------------------------------------------------------------- runs of choices

  /** One candidate offered to whoever is held. */
  datatype Offer = Offer(candidate: Attribution, now: Option<int>, locked: bool)

  /** The attribution held after the offers. */
  function Held(offers: seq<Offer>): Option<Attribution> {
    if offers == [] then None
    else
      var last := offers[|offers| - 1];
      ChooseAttribution(Held(offers[..|offers| - 1]), last.candidate, last.locked, last.now)
  }

  predicate Live(o: Offer) {
    !o.locked && o.now.Some? && o.now.value < o.candidate.expiresAt
  }

  predicate Open(offers: seq<Offer>) {
    forall i :: 0 <= i < |offers| ==> !offers[i].locked
  }

  /** A checkout code outranks every other source, and a server's referral outranks the links and codes
      of the platform, which rank alike. */
  predicate Outranks(a: Source, b: Source) {
    (a.CheckoutCode? && !b.CheckoutCode?) || (a.ServerReferral? && (b.PlatformLink? || b.PlatformQr?))
  }

  /** A higher rank decides, and among equal ranks the later establishment. */
  predicate Beats(a: Attribution, b: Attribution) {
    || Outranks(a.source, b.source)
    || (!Outranks(b.source, a.source) && a.establishedAt > b.establishedAt)
  }

  /** Offer `k` is live and finds nobody held, or somebody who has expired by then. */
  predicate Restarts(offers: seq<Offer>, k: nat)
    requires k < |offers|
  {
    && Live(offers[k])
    && (Held(offers[..k]).None? || offers[k].now.value >= Held(offers[..k]).value.expiresAt)
  }

  /** Offer `k` is the best of the live ones from `start` on, and the earliest of its equals. */
  predicate BestSince(offers: seq<Offer>, start: nat, k: nat) {
    && start <= k < |offers|
    && Live(offers[k])
    && (forall j :: start <= j < |offers| && Live(offers[j]) ==> !Beats(offers[j].candidate, offers[k].candidate))
    && (forall j :: start <= j < k && Live(offers[j]) ==> Beats(offers[k].candidate, offers[j].candidate))
  }

  /** No offer after `i` comes at an invalid time, which would drop whoever is held. */
  predicate KeptAfter(offers: seq<Offer>, i: nat) {
    forall j :: i < j < |offers| ==> offers[j].now.Some?
  }

  /** `start` is the last offer that found nobody held or somebody expired, and nobody was dropped since. */
  predicate LastRestart(offers: seq<Offer>, start: nat) {
    && start < |offers| && Restarts(offers, start) && KeptAfter(offers, start)
    && forall j :: start < j < |offers| ==> !Restarts(offers, j)
  }

  lemma PrefixRestarts(offers: seq<Offer>, n: nat, k: nat)
    requires k < n <= |offers|
    ensures Restarts(offers[..n], k) == Restarts(offers, k)
  {
    assert offers[..n][..k] == offers[..k];
  }

  /** Whoever is held, over every run, is the best of the candidates that were live when they were
      offered, since the held one was last missing or expired; the first of equals stays. Somebody is
      held exactly when a candidate was live and no invalid time came after it. */
  lemma {:induction false} HeldIsBest(offers: seq<Offer>) returns (start: nat, k: nat)
    ensures Held(offers).Some? <==> exists i :: 0 <= i < |offers| && Live(offers[i]) && KeptAfter(offers, i)
    ensures Held(offers).Some? ==>
      LastRestart(offers, start) && BestSince(offers, start, k) && Held(offers).value == offers[k].candidate
  {
    start, k := 0, 0;
    if offers == [] {
      return;
    }
    start, k := HeldIsBest(offers[..|offers| - 1]);
    HeldIffLive(offers);
    if Live(offers[|offers| - 1]) {
      start, k := AfterLiveOffer(offers, start, k);
    } else if Held(offers).Some? {
      AfterDeadOffer(offers, start, k);
    }
  }

  lemma {:induction false} HeldIffLive(offers: seq<Offer>)
    ensures Held(offers).Some? <==> exists i :: 0 <= i < |offers| && Live(offers[i]) && KeptAfter(offers, i)
  {
    if offers != [] {
      var n := |offers| - 1;
      var init := offers[..n];
      HeldIffLive(init);
      if offers[n].now.Some? {
        forall i | 0 <= i < n ensures KeptAfter(init, i) == KeptAfter(offers, i) {
          assert forall j :: 0 <= j < n ==> init[j] == offers[j];
        }
        assert Live(offers[n]) ==> Live(offers[n]) && KeptAfter(offers, n);
        assert forall i :: 0 <= i < n ==> init[i] == offers[i];
      }
    }
  }

  /** A last offer that does not restart leaves the last restart where it was. */
  lemma StaysLast(offers: seq<Offer>, start: nat)
    requires offers != [] && LastRestart(offers[..|offers| - 1], start)
    requires offers[|offers| - 1].now.Some? && !Restarts(offers, |offers| - 1)
    ensures LastRestart(offers, start)
  {
    hide Restarts;
    var n := |offers| - 1;
    var init := offers[..n];
    PrefixRestarts(offers, n, start);
    forall j | start < j < |offers| ensures !Restarts(offers, j) && offers[j].now.Some? {
      if j < n {
        PrefixRestarts(offers, n, j);
        assert !Restarts(init, j) && init[j] == offers[j];
      }
    }
  }

  lemma AfterDeadOffer(offers: seq<Offer>, start: nat, k: nat)
    requires offers != [] && !Live(offers[|offers| - 1]) && Held(offers).Some?
    requires
      var init := offers[..|offers| - 1];
      Held(init).Some? ==>
        LastRestart(init, start) && BestSince(init, start, k) && Held(init).value == init[k].candidate
    ensures LastRestart(offers, start) && BestSince(offers, start, k) && Held(offers).value == offers[k].candidate
  {
    var init := offers[..|offers| - 1];
    assert Held(offers) == Held(init);
    StaysLast(offers, start);
    hide LastRestart;
    assert forall j :: 0 <= j < |init| ==> init[j] == offers[j];
  }

  lemma AfterLiveOffer(offers: seq<Offer>, start: nat, k: nat) returns (newStart: nat, best: nat)
    requires offers != [] && Live(offers[|offers| - 1])
    requires
      var init := offers[..|offers| - 1];
      Held(init).Some? ==>
        LastRestart(init, start) && BestSince(init, start, k) && Held(init).value == init[k].candidate
    ensures LastRestart(offers, newStart) && BestSince(offers, newStart, best)
    ensures Held(offers) == Some(offers[best].candidate)
  {
    var n := |offers| - 1;
    var init, last := offers[..n], offers[n];
    newStart, best := start, k;
    if Restarts(offers, n) {
      newStart, best := n, n;
    } else {
      StaysLast(offers, start);
      BestOfOneMore(offers, start, k);
      best := if Beats(last.candidate, init[k].candidate) then n else k;
    }
  }

  lemma BestOfOneMore(offers: seq<Offer>, start: nat, k: nat)
    requires offers != [] && Live(offers[|offers| - 1]) && BestSince(offers[..|offers| - 1], start, k)
    ensures
      var n := |offers| - 1;
      BestSince(offers, start, if Beats(offers[n].candidate, offers[k].candidate) then n else k)
  {
    var init := offers[..|offers| - 1];
    assert forall j :: 0 <= j < |init| ==> init[j] == offers[j];
  }

  /** The description above leaves one choice: the last restart and the best offer since it are unique. */
  lemma BestIsUnique(offers: seq<Offer>, start: nat, k: nat, otherStart: nat, other: nat)
    requires LastRestart(offers, start) && BestSince(offers, start, k)
    requires LastRestart(offers, otherStart) && BestSince(offers, otherStart, other)
    ensures start == otherStart && k == other
  {
    assert Restarts(offers, start) && Restarts(offers, otherStart);
    assert start == otherStart;
    EarliestBest(offers, start, k, other);
    EarliestBest(offers, start, other, k);
  }

  lemma EarliestBest(offers: seq<Offer>, start: nat, k: nat, other: nat)
    requires BestSince(offers, start, k) && BestSince(offers, start, other)
    ensures k <= other
  {
    assert Live(offers[k]) && Live(offers[other]);
  }

  /** Every time of the run is valid, and no candidate expires before any of them. */
  predicate NeverExpires(offers: seq<Offer>) {
    forall i, j :: 0 <= i < |offers| && 0 <= j < |offers| ==>
      offers[j].now.Some? && offers[j].now.value < offers[i].candidate.expiresAt
  }

  function Candidates(offers: seq<Offer>): multiset<Attribution> {
    multiset(seq(|offers|, i requires 0 <= i < |offers| => offers[i].candidate))
  }

  lemma CandidateOffered(offers: seq<Offer>, c: Attribution)
    ensures c in Candidates(offers) <==> exists i :: 0 <= i < |offers| && offers[i].candidate == c
  {
    var cs := seq(|offers|, i requires 0 <= i < |offers| => offers[i].candidate);
    assert c in multiset(cs) <==> c in cs;
    if i :| 0 <= i < |offers| && offers[i].candidate == c {
      assert cs[i] == c;
    }
  }

  lemma NoRestart(offers: seq<Offer>, k: nat)
    requires Open(offers) && NeverExpires(offers) && 0 < k < |offers|
    ensures !Restarts(offers, k)
  {
    var before := offers[..k];
    var start, m := HeldIsBest(before);
    assert before[0] == offers[0] && Live(before[0]) && KeptAfter(before, 0);
    assert offers[k].now.value < offers[m].candidate.expiresAt;
  }

  /** While nothing expires, whoever is held beats or equals every candidate. */
  lemma HeldBeatsEveryone(offers: seq<Offer>)
    requires Open(offers) && NeverExpires(offers) && offers != []
    ensures Held(offers).Some? && Held(offers).value in Candidates(offers)
    ensures forall c :: c in Candidates(offers) ==> !Beats(c, Held(offers).value)
  {
    var start, k := HeldIsBest(offers);
    assert Live(offers[0]) && KeptAfter(offers, 0);
    CandidateOffered(offers, offers[k].candidate);
    assert start == 0 by {
      if start > 0 { NoRestart(offers, start); }
    }
    forall c | c in Candidates(offers) ensures !Beats(c, Held(offers).value) {
      CandidateOffered(offers, c);
      var i :| 0 <= i < |offers| && offers[i].candidate == c;
      assert Live(offers[i]);
    }
  }

  /** While nothing expires, the order of the offers does not matter: the winner's precedence and
      time of establishment are the same in every order. */
  lemma OrderDoesNotMatter(offers: seq<Offer>, reordered: seq<Offer>)
    requires Open(offers) && NeverExpires(offers) && Open(reordered) && NeverExpires(reordered)
    requires offers != [] && reordered != [] && Candidates(offers) == Candidates(reordered)
    ensures Held(offers).Some? && Held(reordered).Some?
    ensures
      var winner, other := Held(offers).value.source, Held(reordered).value.source;
      !Outranks(winner, other) && !Outranks(other, winner)
    ensures Held(offers).value.establishedAt == Held(reordered).value.establishedAt
  {
    HeldBeatsEveryone(offers);
    HeldBeatsEveryone(reordered);
  }

  /** While every offer from `k` on is locked, whoever is held stays if and only if no invalid time
      comes; one that does leaves nobody held, lock or no lock. */
  lemma {:induction false} LockFreezesIff(offers: seq<Offer>, k: nat)
    requires k <= |offers| && forall i :: k <= i < |offers| ==> offers[i].locked
    ensures Held(offers) == Held(offers[..k])
        <==> Held(offers[..k]).None? || forall i :: k <= i < |offers| ==> offers[i].now.Some?
    ensures Held(offers) != Held(offers[..k]) ==> Held(offers).None?
  {
    if k < |offers| {
      var init := offers[..|offers| - 1];
      LockFreezesIff(init, k);
      assert init[..k] == offers[..k];
      assert forall i :: 0 <= i < |init| ==> init[i] == offers[i];
    } else {
      assert offers[..k] == offers;
    }
  }

  /** Somebody is held, and a locked choice at an invalid time drops them. */
  lemma LockedYetDropped()
    ensures
      var c := Attribution("a", "affiliate", "program", "subject", "evidence", "", PlatformLink, 0, 10);
      var offers := [Offer(c, Some(1), false), Offer(c, None, true)];
      Held(offers[..1]) == Some(c) && Held(offers).None?
  {
    var c := Attribution("a", "affiliate", "program", "subject", "evidence", "", PlatformLink, 0, 10);
    var offers := [Offer(c, Some(1), false), Offer(c, None, true)];
    assert offers[..1] == [Offer(c, Some(1), false)] && offers[..1][..0] == [];
    LockFreezesIff(offers, 1);
  }

  /** A choice at a time that is no timestamp holds nobody, whoever was held. */
  lemma InvalidTimeHoldsNobody(existing: Option<Attribution>, candidate: Attribution, locked: bool, now: Option<int>)
    ensures ChooseAttribution(existing, candidate, locked, now).None?
        <==> now.None? || (existing.None? && (locked || now.value >= candidate.expiresAt))
  {
  }

  /** Evidence is taken exactly if the server validated it, its fingerprint is a lower-case SHA-256, and
      it was received no earlier than it was observed; then it holds what came in. */
  lemma EvidenceTakenIff(input: EvidenceInput)
    ensures
      var taken := CreateReferralEvidence(input);
      && (taken.Some? <==>
            && input.validatedByServer
            && |input.fingerprint| == 64
            && (forall i :: 0 <= i < 64 ==> input.fingerprint[i] in "0123456789abcdef")
            && input.serverObservedAt.Some? && input.receivedAt.Some?
            && input.serverObservedAt.value <= input.receivedAt.value)
      && (taken.Some? ==>
            && Some(taken.value.serverObservedAt) == input.serverObservedAt
            && Some(taken.value.receivedAt) == input.receivedAt
            && taken.value.id == input.id && taken.value.affiliateId == input.affiliateId
            && taken.value.programId == input.programId && taken.value.subjectId == input.subjectId
            && taken.value.source == input.source && taken.value.fingerprint == input.fingerprint)
  {
    forall c: char ensures c in "0123456789abcdef" <==> '0' <= c <= '9' || 'a' <= c <= 'f' {
      HexDigits(c);
    }
  }

  lemma HexDigits(c: char)
    ensures c in "0123456789abcdef" <==> '0' <= c <= '9' || 'a' <= c <= 'f'
  {
    var digits := "0123456789abcdef";
    if '0' <= c <= '9' { assert digits[c as int - '0' as int] == c; }
    if 'a' <= c <= 'f' { assert digits[c as int - 'a' as int + 10] == c; }
  }

  /** Evidence that the server validated makes an attribution that is live for thirty days from its
      observation, to the millisecond, and that the choice at that time takes over an empty hand. */
  lemma EvidenceMakesALiveCandidate(input: EvidenceInput, id: string, now: int)
    requires CreateReferralEvidence(input).Some?
    ensures
      var evidence := CreateReferralEvidence(input).value;
      var made := CreateAttribution(id, evidence, Some(now));
      && evidence.serverObservedAt <= evidence.receivedAt && IsSha256(evidence.fingerprint)
      && (made.Some? <==> now - evidence.serverObservedAt < 30 * 24 * 60 * 60 * 1000)
      && (made.Some? ==>
            && made.value.id == id && made.value.evidenceId == input.id && made.value.affiliateId == input.affiliateId
            && made.value.programId == input.programId && made.value.subjectId == input.subjectId
            && made.value.fingerprint == input.fingerprint && made.value.source == input.source
            && Some(made.value.establishedAt) == input.serverObservedAt
            && made.value.expiresAt == made.value.establishedAt + 30 * 24 * 60 * 60 * 1000
            && Live(Offer(made.value, Some(now), false))
            && ChooseAttribution(None, made.value, false, Some(now)) == made)
  {
  }
}
