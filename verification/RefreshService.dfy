/** Issuing and rotating refresh tokens against the tables, and the endpoint that wraps a rotation in transactions. */
module RefreshService {
  import opened Wrappers
  import opened RefreshTokens

  datatype Outcome = Tokens(token: string, user: User, org: Org) | Unauthenticated | Failed

  /** One request to the endpoint: a lookup transaction, then a rotation whose rejection leaves the block as an
      exception. */
  function AfterRequest(s: Store, profiles: set<User>, now: Time, raw: Option<string>, newRaw: string)
    : (Outcome, Store) {
    if raw.None? then (Unauthenticated, s) else
    match OrganizationFor(s, Sha256(raw.value))
    case None => (Unauthenticated, s)
    case Some(org) =>
      var step := Timed(org, now, Rotate(raw.value, newRaw));
      match AnswerOf(s, step)
      case Rotated(token, user, rotatedOrg) =>
        (if user in profiles then Tokens(token, user, rotatedOrg) else Unauthenticated, AfterCall(s, step))
      case Rejected(_) => (Unauthenticated, s)
      case _ => (Failed, s)
  }

  /** What a request to the endpoint answers and leaves. Only a live token of a family that is neither revoked nor
      expired rotates, and only for a user who still has a profile are tokens returned; whatever else is presented
      changes nothing. */
  ghost predicate Answers(s: Store, s': Store, profiles: set<User>, now: Time, raw: Option<string>, newRaw: string,
                          outcome: Outcome) {
    if raw.None? || Sha256(raw.value) !in s.history then outcome == Unauthenticated && s' == s else
    var id := s.history[Sha256(raw.value)].family;
    if id !in s.families || s.families[id].current != Sha256(raw.value) then outcome == Unauthenticated && s' == s else
    var f := s.families[id];
    if f.revokedAt.Some? || f.expiresAt <= now then outcome == Unauthenticated && s' == s
    else if Sha256(newRaw) in s.history then outcome == Failed && s' == s
    else
      && outcome == (if f.user in profiles then Tokens(newRaw, f.user, f.org) else Unauthenticated)
      && s' == Store(s.families[id := Family(f.org, f.user, Sha256(newRaw), None, f.expiresAt)],
                     s.history[Sha256(newRaw) := HistoryRow(id, f.org)])
  }

  lemma RequestExactly(s: Store, profiles: set<User>, now: Time, raw: Option<string>, newRaw: string)
    requires Structured(s)
    ensures var (outcome, s') := AfterRequest(s, profiles, now, raw, newRaw);
      Answers(s, s', profiles, now, raw, newRaw, outcome)
  {
    if raw.Some? && Sha256(raw.value) in s.history {
      var h := Sha256(raw.value);
      RotationExactly(s, s.history[h].org, now, raw.value, newRaw);
      var id := s.history[h].family;
      assert id in s.families && s.families[id].org == s.history[h].org;
      assert s.families[id].current == h ==> HoldsToken(s, s.history[h].org, raw.value, id);
      forall other | HoldsToken(s, s.history[h].org, raw.value, other) ensures other == id {
      }
      hide AnswerOf, AfterCall;
    }
  }

  // ---- Runs of logins and requests ----------------------------------------------------------

  datatype Event =
    | Login(now: Time, family: FamilyId, user: User, org: Org, raw: string, expiresAt: Time)
    | Request(profiles: set<User>, now: Time, token: Option<string>, newRaw: string)

  datatype Reply = LoggedIn(answer: Answer) | Refreshed(outcome: Outcome)

  function AfterEvent(s: Store, e: Event): (Reply, Store) {
    match e
    case Login(now, family, user, org, raw, expiresAt) =>
      var step := Timed(org, now, Issue(family, user, org, raw, expiresAt));
      (LoggedIn(AnswerOf(s, step)), AfterCall(s, step))
    case Request(profiles, now, token, newRaw) =>
      var (outcome, s') := AfterRequest(s, profiles, now, token, newRaw);
      (Refreshed(outcome), s')
  }

  function AfterEvents(s: Store, events: seq<Event>): Store {
    if events == [] then s else AfterEvent(AfterEvents(s, events[..|events| - 1]), events[|events| - 1]).1
  }

  function Replies(s: Store, events: seq<Event>): seq<Reply> {
    if events == [] then [] else
    var front := events[..|events| - 1];
    Replies(s, front) + [AfterEvent(AfterEvents(s, front), events[|events| - 1]).0]
  }

  /** A request whose token is missing, unknown, consumed, revoked or expired. */
  predicate TurnedAway(s: Store, e: Event) {
    && e.Request?
    && (|| e.token.None?
        || OrganizationFor(s, Sha256(e.token.value)).None?
        || AnswerOf(s, Timed(OrganizationFor(s, Sha256(e.token.value)).value, e.now,
                             Rotate(e.token.value, e.newRaw))).Rejected?)
  }

  /** Turned away is whatever is no live token of a family neither revoked nor expired. */
  lemma TurnedAwayExactly(s: Store, e: Event)
    requires Structured(s) && e.Request?
    ensures TurnedAway(s, e) <==>
      || e.token.None? || Sha256(e.token.value) !in s.history
      || var f := s.families[s.history[Sha256(e.token.value)].family];
         f.current != Sha256(e.token.value) || f.revokedAt.Some? || f.expiresAt <= e.now
  {
    if e.token.Some? {
      RequestExactly(s, e.profiles, e.now, e.token, e.newRaw);
    }
  }

  /** The events without the requests that were turned away. */
  function Kept(s: Store, events: seq<Event>): seq<Event> {
    if events == [] then [] else
    var front, last := events[..|events| - 1], events[|events| - 1];
    Kept(s, front) + (if TurnedAway(AfterEvents(s, front), last) then [] else [last])
  }

  /** The replies to the events that are kept. */
  function KeptReplies(s: Store, events: seq<Event>): seq<Reply> {
    if events == [] then [] else
    var front, last := events[..|events| - 1], events[|events| - 1];
    KeptReplies(s, front)
      + (if TurnedAway(AfterEvents(s, front), last) then [] else [AfterEvent(AfterEvents(s, front), last).0])
  }

  /** Over every run of logins and requests no family is ever revoked: each revocation is rolled back with the rejection
      that caused it. */
  lemma {:induction false} EndpointNeverRevokes(events: seq<Event>)
    ensures Structured(AfterEvents(EMPTY, events))
    ensures forall id :: id in AfterEvents(EMPTY, events).families ==>
      AfterEvents(EMPTY, events).families[id].revokedAt.None?
  {
    if events != [] {
      var front, last := events[..|events| - 1], events[|events| - 1];
      EndpointNeverRevokes(front);
      EventRevokesNothing(AfterEvents(EMPTY, front), last);
    }
  }

  lemma EventRevokesNothing(s: Store, e: Event)
    requires Structured(s) && forall id :: id in s.families ==> s.families[id].revokedAt.None?
    ensures var s' := AfterEvent(s, e).1;
      Structured(s') && forall id :: id in s'.families ==> s'.families[id].revokedAt.None?
  {
    match e
    case Login(now, family, user, org, raw, expiresAt) =>
      StructureKept(s, Timed(org, now, Issue(family, user, org, raw, expiresAt)));
    case Request(profiles, now, token, newRaw) =>
      if token.Some? && OrganizationFor(s, Sha256(token.value)).Some? {
        StructureKept(s, Timed(OrganizationFor(s, Sha256(token.value)).value, now, Rotate(token.value, newRaw)));
      }
  }

  lemma TurnedAwayChangesNothing(s: Store, e: Event)
    requires TurnedAway(s, e)
    ensures AfterEvent(s, e).1 == s
  {
  }

  /** The requests that were turned away, replays of consumed tokens among them, leave no trace: without them every
      other event is answered alike and the tables end the same. */
  lemma {:induction false} RejectedRequestsLeaveNoTrace(s: Store, events: seq<Event>)
    ensures AfterEvents(s, Kept(s, events)) == AfterEvents(s, events)
    ensures Replies(s, Kept(s, events)) == KeptReplies(s, events)
  {
    if events != [] {
      var front, last := events[..|events| - 1], events[|events| - 1];
      hide AfterEvent, TurnedAway;
      RejectedRequestsLeaveNoTrace(s, front);
      if TurnedAway(AfterEvents(s, front), last) {
        TurnedAwayChangesNothing(AfterEvents(s, front), last);
        assert Kept(s, events) == Kept(s, front);
      } else {
        var kept := Kept(s, events);
        assert kept[..|kept| - 1] == Kept(s, front) && kept[|kept| - 1] == last;
      }
    }
  }

  /** One login, one refresh, a replay of the first token, and the family goes on as if nothing had happened. */
  lemma TheftGoesUnpunished()
    ensures var s0 := AfterCall(EMPTY, Timed(1, 0, Issue(9, 5, 1, "a", 100)));
      var (first, s1) := AfterRequest(s0, {5}, 10, Some("a"), "b");
      var (replay, s2) := AfterRequest(s1, {5}, 20, Some("a"), "c");
      var (next, s3) := AfterRequest(s2, {5}, 30, Some("b"), "d");
      first == Tokens("b", 5, 1) && replay == Unauthenticated && next == Tokens("d", 5, 1)
  {
    var s0 := AfterCall(EMPTY, Timed(1, 0, Issue(9, 5, 1, "a", 100)));
    assert s0 == Store(map[9 := Family(1, 5, Sha256("a"), None, 100)], map[Sha256("a") := HistoryRow(9, 1)]);
    assert "a"[0] != "b"[0] && "a"[0] != "d"[0] && "b"[0] != "d"[0];
    var s1 := AfterRequest(s0, {5}, 10, Some("a"), "b").1;
    assert s1 == Store(map[9 := Family(1, 5, Sha256("b"), None, 100)],
                       map[Sha256("a") := HistoryRow(9, 1), Sha256("b") := HistoryRow(9, 1)]);
    var s2 := AfterRequest(s1, {5}, 20, Some("a"), "c").1;
    assert s2 == s1;
  }

  class RefreshTables {
    var families: map<FamilyId, Family>
    var history: map<Hash, HistoryRow>

    constructor ()
      ensures Now() == EMPTY
    {
      families, history := map[], map[];
    }

    function Now(): Store
      reads this
    {
      Store(families, history)
    }

    method FindByHash(scope: Org, h: Hash) returns (row: Option<FamilyId>)
      ensures if row.Some? then row.value in Live(Now(), scope, h) else Live(Now(), scope, h) == {}
    {
      var live := Live(Now(), scope, h);
      if live == {} {
        return None;
      }
      var id :| id in live;
      return Some(id);
    }

    /** By family id alone: the statement does not look at the hash it replaces. */
    method ReplaceHash(scope: Org, id: FamilyId, h: Hash)
      modifies this`families
      ensures families == if id in Visible(old(Now()), scope)
                then old(families)[id := old(families)[id].(current := h)] else old(families)
    {
      if id in families && families[id].org == scope {
        families := families[id := families[id].(current := h)];
      }
    }

    method RevokeFamilyContaining(scope: Org, h: Hash, now: Time)
      modifies this`families
      ensures Now() == RevokedContaining(old(Now()), scope, h, now)
    {
      if h in history && history[h].org == scope {
        var id := history[h].family;
        if id in families && families[id].org == scope {
          families := families[id := families[id].(revokedAt := Some(now))];
        }
      }
    }

    /** The hash is the primary key, and the row must belong to the scope. */
    method RecordHistory(scope: Org, id: FamilyId, org: Org, h: Hash) returns (ok: bool)
      modifies this`history
      ensures ok <==> h !in old(history) && org == scope
      ensures history == if ok then old(history)[h := HistoryRow(id, org)] else old(history)
    {
      ok := h !in history && org == scope;
      if ok {
        history := history[h := HistoryRow(id, org)];
      }
    }

    method InsertFamily(scope: Org, id: FamilyId, family: Family) returns (ok: bool)
      modifies this`families
      ensures ok <==> id !in old(families) && family.org == scope
      ensures families == if ok then old(families)[id := family] else old(families)
    {
      ok := id !in families && family.org == scope;
      if ok {
        families := families[id := family];
      }
    }

    /** Inside a transaction: when a statement is refused, what the earlier ones wrote is for the rollback to undo. */
    method IssueFamily(scope: Org, now: Time, id: FamilyId, user: User, org: Org, raw: string, expiresAt: Time)
      returns (answer: Answer)
      modifies this
      ensures answer == AnswerOf(old(Now()), Timed(scope, now, Issue(id, user, org, raw, expiresAt)))
      ensures answer != Refused
        ==> Now() == AfterCall(old(Now()), Timed(scope, now, Issue(id, user, org, raw, expiresAt)))
      ensures LogsIn(old(Now()), Now(), scope, id, user, org, raw, expiresAt, answer)
    {
      LoginExactly(Now(), scope, now, id, user, org, raw, expiresAt);
      var ok := InsertFamily(scope, id, Family(org, user, Sha256(raw), None, expiresAt));
      if !ok {
        return Refused;
      }
      ok := RecordHistory(scope, id, org, Sha256(raw));
      return if ok then Answer.Issued else Refused;
    }

    method RotateToken(scope: Org, now: Time, raw: string, newRaw: string) returns (answer: Answer)
      requires Structured(Now())
      modifies this
      ensures answer == AnswerOf(old(Now()), Timed(scope, now, Rotate(raw, newRaw)))
      ensures answer != Refused ==> Now() == AfterCall(old(Now()), Timed(scope, now, Rotate(raw, newRaw)))
      ensures Rotates(old(Now()), Now(), scope, now, raw, newRaw, answer)
    {
      RotationExactly(Now(), scope, now, raw, newRaw);
      OneLiveFamily(Now(), scope, Sha256(raw));
      var row := FindByHash(scope, Sha256(raw));
      if row.None? {
        RevokeFamilyContaining(scope, Sha256(raw), now);
        return Rejected(Consumed);
      }
      var family := families[row.value];
      if family.revokedAt.Some? {
        return Rejected(Revoked);
      }
      if family.expiresAt <= now {
        return Rejected(Expired);
      }
      ReplaceHash(scope, row.value, Sha256(newRaw));
      var ok := RecordHistory(scope, row.value, family.org, Sha256(newRaw));
      return if ok then Rotated(newRaw, family.user, family.org) else Refused;
    }

    /** LIMIT 1 over both tables; which row it picks does not matter. */
    method AuthOrgForRefresh(h: Hash) returns (org: Option<Org>)
      requires Structured(Now())
      ensures org == OrganizationFor(Now(), h)
      ensures org == if h in history then Some(history[h].org) else None
    {
      LookupIsDetermined(Now(), h);
      var live := set id | id in families && families[id].current == h;
      if live != {} {
        var id :| id in live;
        assert Candidate(Now(), h, families[id].org);
        return Some(families[id].org);
      }
      return if h in history then Some(history[h].org) else None;
    }

    /** The request. An exception leaving the second block rolls it back. */
    method RefreshRequest(profiles: set<User>, now: Time, raw: Option<string>, newRaw: string)
      returns (outcome: Outcome)
      requires Structured(Now())
      modifies this
      ensures (outcome, Now()) == AfterRequest(old(Now()), profiles, now, raw, newRaw)
      ensures Structured(Now())
      ensures Answers(old(Now()), Now(), profiles, now, raw, newRaw, outcome)
    {
      RequestExactly(Now(), profiles, now, raw, newRaw);
      if raw.Some? && OrganizationFor(Now(), Sha256(raw.value)).Some? {
        StructureKept(Now(), Timed(OrganizationFor(Now(), Sha256(raw.value)).value, now, Rotate(raw.value, newRaw)));
      }
      if raw.None? {
        return Unauthenticated;
      }
      var org := AuthOrgForRefresh(Sha256(raw.value));
      if org.None? {
        return Unauthenticated;
      }
      var savedFamilies, savedHistory := families, history;
      hide Structured, AfterCall, FoundByHash, Answers, Rotates;
      var answer := RotateToken(org.value, now, raw.value, newRaw);
      match answer
      case Rotated(token, user, rotatedOrg) =>
        return if user in profiles then Tokens(token, user, rotatedOrg) else Unauthenticated;
      case Rejected(_) =>
        families, history := savedFamilies, savedHistory;
        return Unauthenticated;
      case _ =>
        families, history := savedFamilies, savedHistory;
        return Failed;
    }
  }
}
