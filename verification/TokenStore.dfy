/** The API token and audit store of edc_translation/auth.py: tokens, the audit log, and how they agree. */
module TokenStore {
  import opened Wrappers
  import opened Principals

  datatype Token = Token(
    tokenId: string,
    tokenHash: string,
    tenantId: string,
    scopes: set<string>,
    createdBy: string,
    createdAt: int,
    expiresAt: Option<int>,
    revokedAt: Option<int>,
    lastUsedAt: Option<int>)
  {
    predicate IsActive(now: int) {
      revokedAt.None? && (expiresAt.Some? ==> expiresAt.value > now)
    }
  }

  datatype Outcome = Allowed | Denied | Error

  datatype AuditEvent = AuditEvent(
    eventType: string,
    outcome: Outcome,
    tenantId: string,
    subject: string,
    resource: string,
    timestamp: int,
    details: string)

  datatype Store = Store(tokens: seq<Token>, events: seq<AuditEvent>)

  const EMPTY := Store([], [])

  // ---------------------------------------------------------------- operations

  function Without(tokens: seq<Token>, id: string): seq<Token> {
    if tokens == [] then [] else
    Without(tokens[..|tokens| - 1], id) + (if tokens[|tokens| - 1].tokenId == id then [] else [tokens[|tokens| - 1]])
  }

  function Save(s: Store, record: Token): Store {
    s.(tokens := Without(s.tokens, record.tokenId) + [record])
  }

  function Append(s: Store, event: AuditEvent): Store {
    s.(events := s.events + [event])
  }

  predicate HasId(s: Store, id: string) {
    exists i :: 0 <= i < |s.tokens| && s.tokens[i].tokenId == id
  }

  function Revoked(tokens: seq<Token>, id: string, now: int): (ts: seq<Token>)
    ensures |ts| == |tokens|
  {
    seq(|tokens|, i requires 0 <= i < |tokens| =>
      if tokens[i].tokenId == id then tokens[i].(revokedAt := Some(now)) else tokens[i])
  }

  function Revoke(s: Store, id: string, actor: Principal, now: int): Result<Store, AuthError> {
    if !HasId(s, id) then Failure(NotFound)
    else
      var event := AuditEvent("api_token.revoked", Allowed, actor.tenantId, actor.subject, id, now, "");
      Success(Append(s.(tokens := Revoked(s.tokens, id, now)), event))
  }

  /** The first token whose hash verifies, at or after `from`. */
  function FirstVerified(tokens: seq<Token>, verify: (string, string) -> bool, text: string,
                         from: nat): (i: Option<nat>)
    requires from <= |tokens|
    ensures i.Some? ==> from <= i.value < |tokens| && verify(text, tokens[i.value].tokenHash)
    ensures i.Some? ==> forall k :: from <= k < i.value ==> !verify(text, tokens[k].tokenHash)
    ensures i.None? ==> forall k :: from <= k < |tokens| ==> !verify(text, tokens[k].tokenHash)
    decreases |tokens| - from
  {
    if from == |tokens| then None
    else if verify(text, tokens[from].tokenHash) then Some(from)
    else FirstVerified(tokens, verify, text, from + 1)
  }

  function PrincipalOf(t: Token): Principal {
    Principal(t.createdBy, t.tenantId, {}, t.scopes, "api_token", Some(t.tokenId))
  }

  function Used(tokens: seq<Token>, record: Token, now: int): (ts: seq<Token>)
    ensures |ts| == |tokens|
  {
    seq(|tokens|, i requires 0 <= i < |tokens| =>
      if tokens[i].tokenId == record.tokenId then record.(lastUsedAt := Some(now)) else tokens[i])
  }

  function UseEvent(t: Token, now: int): AuditEvent {
    AuditEvent("api_token.used", Allowed, t.tenantId, t.createdBy, t.tokenId, now, "")
  }

  function DenyEvent(t: Token, now: int): AuditEvent {
    AuditEvent("api_token.denied", Denied, t.tenantId, t.createdBy, t.tokenId, now, "expired_or_revoked")
  }

  function Authenticate(s: Store, verify: (string, string) -> bool, text: string, now: int)
    : (Store, Result<Principal, AuthError>)
  {
    var i := FirstVerified(s.tokens, verify, text, 0);
    if i.None? then (s, Failure(NotFound)) else
    var t := s.tokens[i.value];
    if !t.IsActive(now) then (Append(s, DenyEvent(t, now)), Failure(ExpiredOrRevoked))
    else (Append(s.(tokens := Used(s.tokens, t, now)), UseEvent(t, now)), Success(PrincipalOf(t)))
  }

  datatype Op =
    | OpSave(record: Token)
    | OpRevoke(id: string, actor: Principal, now: int)
    | OpAuthenticate(text: string, now: int)
    | OpRecord(event: AuditEvent)

  function Apply(s: Store, verify: (string, string) -> bool, op: Op): Store {
    match op
    case OpSave(record) => Save(s, record)
    case OpRevoke(id, actor, now) => var r := Revoke(s, id, actor, now); if r.Success? then r.value else s
    case OpAuthenticate(text, now) => Authenticate(s, verify, text, now).0
    case OpRecord(event) => Append(s, event)
  }

  function After(verify: (string, string) -> bool, run: seq<Op>): Store {
    if run == [] then EMPTY else Apply(After(verify, run[..|run| - 1]), verify, run[|run| - 1])
  }

  // ---------------------------------------------------------------- every run

  predicate DistinctIds(tokens: seq<Token>) {
    forall i, j :: 0 <= i < j < |tokens| ==> tokens[i].tokenId != tokens[j].tokenId
  }

  lemma {:induction false} WithoutKeepsTheRest(tokens: seq<Token>, id: string)
    requires DistinctIds(tokens)
    ensures var rest := Without(tokens, id);
      && DistinctIds(rest)
      && (forall t :: t in rest <==> t in tokens && t.tokenId != id)
  {
    if tokens != [] {
      var init, last := tokens[..|tokens| - 1], tokens[|tokens| - 1];
      WithoutKeepsTheRest(init, id);
      assert tokens == init + [last];
      assert forall i :: 0 <= i < |Without(init, id)| ==> Without(init, id)[i] in init;
    }
  }

  lemma StepKeepsDistinct(s: Store, verify: (string, string) -> bool, op: Op)
    requires DistinctIds(s.tokens)
    ensures DistinctIds(Apply(s, verify, op).tokens)
    ensures s.events <= Apply(s, verify, op).events
  {
    if op.OpSave? {
      WithoutKeepsTheRest(s.tokens, op.record.tokenId);
      var rest := Without(s.tokens, op.record.tokenId);
      assert forall i :: 0 <= i < |rest| ==> rest[i] in rest;
    }
  }

  /** Over every run token ids stay distinct and the audit log only grows, whatever is saved or recorded. */
  lemma {:induction false} IdsDistinctAndLogGrows(verify: (string, string) -> bool, run: seq<Op>, n: nat)
    requires n <= |run|
    ensures DistinctIds(After(verify, run).tokens)
    ensures After(verify, run[..n]).events <= After(verify, run).events
  {
    if n == |run| {
      assert run[..n] == run;
      if run != [] {
        IdsDistinctAndLogGrows(verify, run[..|run| - 1], |run| - 1);
        StepKeepsDistinct(After(verify, run[..|run| - 1]), verify, run[|run| - 1]);
      }
    } else {
      assert run[..|run| - 1][..n] == run[..n];
      IdsDistinctAndLogGrows(verify, run[..|run| - 1], n);
      StepKeepsDistinct(After(verify, run[..|run| - 1]), verify, run[|run| - 1]);
    }
  }

  // ---------------------------------------------------------------- last use

  /** The time of the last use the log records for the token. */
  function LastUse(events: seq<AuditEvent>, id: string): Option<int> {
    if events == [] then None else
    var e := events[|events| - 1];
    if e.eventType == "api_token.used" && e.resource == id then Some(e.timestamp)
    else LastUse(events[..|events| - 1], id)
  }

  lemma LastUseAppend(events: seq<AuditEvent>, e: AuditEvent, id: string)
    ensures LastUse(events + [e], id) ==
      if e.eventType == "api_token.used" && e.resource == id then Some(e.timestamp) else LastUse(events, id)
  {
    assert (events + [e])[..|events|] == events;
  }

  /** The last use the store itself has for the id: that of its token, or none. */
  function StoredUse(tokens: seq<Token>, id: string): Option<int> {
    if tokens == [] then None else
    var t := tokens[|tokens| - 1];
    if t.tokenId == id then t.lastUsedAt else StoredUse(tokens[..|tokens| - 1], id)
  }

  /** Every token's last use is that of the log, and the log has no use of an id that is not stored. */
  ghost predicate UsesAgree(s: Store) {
    forall id :: StoredUse(s.tokens, id) == LastUse(s.events, id)
  }

  lemma StoredUseAppend(tokens: seq<Token>, t: Token, id: string)
    ensures StoredUse(tokens + [t], id) == if t.tokenId == id then t.lastUsedAt else StoredUse(tokens, id)
  {
    assert (tokens + [t])[..|tokens|] == tokens;
  }

  lemma {:induction false} StoredUseOfToken(tokens: seq<Token>, i: nat)
    requires DistinctIds(tokens) && i < |tokens|
    ensures StoredUse(tokens, tokens[i].tokenId) == tokens[i].lastUsedAt
  {
    if i < |tokens| - 1 { StoredUseOfToken(tokens[..|tokens| - 1], i); }
  }

  lemma {:induction false} NotStored(tokens: seq<Token>, id: string)
    requires forall i :: 0 <= i < |tokens| ==> tokens[i].tokenId != id
    ensures StoredUse(tokens, id).None?
  {
    if tokens != [] { NotStored(tokens[..|tokens| - 1], id); }
  }

  lemma {:induction false} StoredUseWithout(tokens: seq<Token>, removed: string, id: string)
    ensures StoredUse(Without(tokens, removed), id) == if id == removed then None else StoredUse(tokens, id)
  {
    if tokens != [] {
      var init, last := tokens[..|tokens| - 1], tokens[|tokens| - 1];
      StoredUseWithout(init, removed, id);
      if last.tokenId == removed {
        assert Without(tokens, removed) == Without(init, removed);
      } else {
        StoredUseAppend(Without(init, removed), last, id);
      }
    }
  }

  lemma {:induction false} StoredUseRevoked(tokens: seq<Token>, revoked: string, now: int, id: string)
    ensures StoredUse(Revoked(tokens, revoked, now), id) == StoredUse(tokens, id)
  {
    if tokens != [] {
      var init := tokens[..|tokens| - 1];
      StoredUseRevoked(init, revoked, now, id);
      assert Revoked(tokens, revoked, now)[..|init|] == Revoked(init, revoked, now);
    }
  }

  lemma {:induction false} StoredUseUsed(tokens: seq<Token>, record: Token, now: int, id: string)
    ensures StoredUse(Used(tokens, record, now), id) ==
      if id == record.tokenId && (exists i :: 0 <= i < |tokens| && tokens[i].tokenId == id) then Some(now)
      else StoredUse(tokens, id)
  {
    if tokens != [] {
      var init, last := tokens[..|tokens| - 1], tokens[|tokens| - 1];
      StoredUseUsed(init, record, now, id);
      assert Used(tokens, record, now)[..|init|] == Used(init, record, now);
      assert forall i :: 0 <= i < |tokens| ==> tokens[i] == if i < |init| then init[i] else last;
    }
  }

  /**
   What the caller can see to before the call: a saved record carries the use the store has for its id
   (none for an id it does not have), and a use recorded by hand repeats one the store has.
   */
  predicate Faithful(tokens: seq<Token>, op: Op) {
    match op
    case OpSave(record) => record.lastUsedAt == StoredUse(tokens, record.tokenId)
    case OpRecord(e) => e.eventType == "api_token.used" ==> StoredUse(tokens, e.resource) == Some(e.timestamp)
    case _ => true
  }

  lemma SaveAgreesIffFaithful(s: Store, record: Token)
    requires UsesAgree(s)
    ensures UsesAgree(Save(s, record)) <==> record.lastUsedAt == StoredUse(s.tokens, record.tokenId)
  {
    var s' := Save(s, record);
    forall id
      ensures StoredUse(s'.tokens, id) == if id == record.tokenId then record.lastUsedAt else LastUse(s'.events, id)
    {
      StoredUseWithout(s.tokens, record.tokenId, id);
      StoredUseAppend(Without(s.tokens, record.tokenId), record, id);
    }
    assert LastUse(s'.events, record.tokenId) == StoredUse(s.tokens, record.tokenId);
  }

  lemma AppendAgreesIff(s: Store, e: AuditEvent)
    requires UsesAgree(s)
    ensures UsesAgree(Append(s, e)) <==> Faithful(s.tokens, OpRecord(e))
  {
    forall id
      ensures StoredUse(s.tokens, id) == LastUse(Append(s, e).events, id) <==>
        (e.eventType == "api_token.used" && id == e.resource ==> StoredUse(s.tokens, id) == Some(e.timestamp))
    {
      LastUseAppend(s.events, e, id);
    }
  }

  lemma RevokeAgrees(s: Store, id: string, actor: Principal, now: int)
    requires UsesAgree(s) && Revoke(s, id, actor, now).Success?
    ensures UsesAgree(Revoke(s, id, actor, now).value)
  {
    var s' := s.(tokens := Revoked(s.tokens, id, now));
    forall other
      ensures StoredUse(s'.tokens, other) == LastUse(s'.events, other)
    {
      StoredUseRevoked(s.tokens, id, now, other);
    }
    AppendAgreesIff(s', AuditEvent("api_token.revoked", Allowed, actor.tenantId, actor.subject, id, now, ""));
  }

  lemma UseAgrees(s: Store, i: nat, now: int)
    requires UsesAgree(s) && i < |s.tokens|
    ensures UsesAgree(Append(s.(tokens := Used(s.tokens, s.tokens[i], now)), UseEvent(s.tokens[i], now)))
  {
    var record := s.tokens[i];
    var s' := Append(s.(tokens := Used(s.tokens, record, now)), UseEvent(record, now));
    forall id
      ensures StoredUse(s'.tokens, id) == LastUse(s'.events, id)
    {
      LastUseAppend(s.events, UseEvent(record, now), id);
      StoredUseUsed(s.tokens, record, now, id);
    }
  }

  lemma StepAgreesIffFaithful(s: Store, verify: (string, string) -> bool, op: Op)
    requires UsesAgree(s)
    ensures UsesAgree(Apply(s, verify, op)) <==> Faithful(s.tokens, op)
  {
    match op
    case OpSave(record) => SaveAgreesIffFaithful(s, record);
    case OpRecord(e) => AppendAgreesIff(s, e);
    case OpRevoke(id, actor, now) => if Revoke(s, id, actor, now).Success? { RevokeAgrees(s, id, actor, now); }
    case OpAuthenticate(text, now) =>
      var i := FirstVerified(s.tokens, verify, text, 0);
      if i.Some? {
        if s.tokens[i.value].IsActive(now) {
          UseAgrees(s, i.value, now);
        } else {
          AppendAgreesIff(s, DenyEvent(s.tokens[i.value], now));
        }
      }
  }

  predicate FaithfulRun(verify: (string, string) -> bool, run: seq<Op>) {
    run == [] ||
    var before := run[..|run| - 1];
    FaithfulRun(verify, before) && Faithful(After(verify, before).tokens, run[|run| - 1])
  }

  ghost predicate AlwaysAgrees(verify: (string, string) -> bool, run: seq<Op>) {
    UsesAgree(After(verify, run)) && (run != [] ==> AlwaysAgrees(verify, run[..|run| - 1]))
  }

  /** The tokens agree with the log throughout exactly the runs whose saves and hand-made events are faithful. */
  lemma {:induction false} LastUsedAgreesWithLogIff(verify: (string, string) -> bool, run: seq<Op>)
    ensures AlwaysAgrees(verify, run) <==> FaithfulRun(verify, run)
  {
    if run != [] {
      var before := run[..|run| - 1];
      LastUsedAgreesWithLogIff(verify, before);
      if AlwaysAgrees(verify, before) {
        StepAgreesIffFaithful(After(verify, before), verify, run[|run| - 1]);
      }
    }
  }

  // ---------------------------------------------------------------- issuing, using and revoking

  predicate SavedIn(run: seq<Op>, id: string) {
    exists i :: 0 <= i < |run| && run[i].OpSave? && run[i].record.tokenId == id
  }

  /** Tokens are saved once, unused, when they are issued; nobody writes use events by hand. */
  predicate IssuesOnly(run: seq<Op>) {
    run == [] ||
    var before, op := run[..|run| - 1], run[|run| - 1];
    && IssuesOnly(before)
    && (op.OpSave? ==> op.record.lastUsedAt.None? && !SavedIn(before, op.record.tokenId))
    && (op.OpRecord? ==> op.event.eventType != "api_token.used")
  }

  /** No operation but a save brings in an id. */
  lemma StepBringsNoId(s: Store, verify: (string, string) -> bool, op: Op, id: string)
    requires HasId(Apply(s, verify, op), id)
    ensures HasId(s, id) || (op.OpSave? && op.record.tokenId == id)
  {
    var s' := Apply(s, verify, op);
    var i :| 0 <= i < |s'.tokens| && s'.tokens[i].tokenId == id;
    if op.OpSave? && op.record.tokenId != id {
      var rest := Without(s.tokens, op.record.tokenId);
      assert s'.tokens[i] == rest[i];
      WithoutIsPart(s.tokens, op.record.tokenId, i);
    } else if !op.OpSave? {
      assert s.tokens[i].tokenId == id;
    }
  }

  lemma {:induction false} WithoutIsPart(tokens: seq<Token>, id: string, i: nat)
    requires i < |Without(tokens, id)|
    ensures exists k :: 0 <= k < |tokens| && tokens[k].tokenId == Without(tokens, id)[i].tokenId
  {
    var init := tokens[..|tokens| - 1];
    if i < |Without(init, id)| {
      WithoutIsPart(init, id, i);
      var k :| 0 <= k < |init| && init[k].tokenId == Without(init, id)[i].tokenId;
      assert tokens[k] == init[k];
    } else {
      assert tokens[|tokens| - 1].tokenId == Without(tokens, id)[i].tokenId;
    }
  }

  lemma {:induction false} StoredIdsWereSaved(verify: (string, string) -> bool, run: seq<Op>, id: string)
    requires HasId(After(verify, run), id)
    ensures SavedIn(run, id)
  {
    if run != [] {
      var before, op := run[..|run| - 1], run[|run| - 1];
      StepBringsNoId(After(verify, before), verify, op, id);
      if HasId(After(verify, before), id) {
        StoredIdsWereSaved(verify, before, id);
        var i :| 0 <= i < |before| && before[i].OpSave? && before[i].record.tokenId == id;
        assert run[i] == before[i];
      }
    }
  }

  lemma {:induction false} IssuingIsFaithful(verify: (string, string) -> bool, run: seq<Op>)
    requires IssuesOnly(run)
    ensures FaithfulRun(verify, run)
  {
    if run != [] {
      var before, op := run[..|run| - 1], run[|run| - 1];
      IssuingIsFaithful(verify, before);
      if op.OpSave? {
        if HasId(After(verify, before), op.record.tokenId) { StoredIdsWereSaved(verify, before, op.record.tokenId); }
        NotStored(After(verify, before).tokens, op.record.tokenId);
      }
    }
  }

  /**
   Over every run of issuing, authenticating and revoking, each token's last use is the time of the last
   use event the log has for it.
   */
  lemma LastUsedAgreesWithLog(verify: (string, string) -> bool, run: seq<Op>)
    requires IssuesOnly(run)
    ensures AlwaysAgrees(verify, run)
    ensures var s := After(verify, run);
      forall i :: 0 <= i < |s.tokens| ==> s.tokens[i].lastUsedAt == LastUse(s.events, s.tokens[i].tokenId)
  {
    IssuingIsFaithful(verify, run);
    LastUsedAgreesWithLogIff(verify, run);
    IdsDistinctAndLogGrows(verify, run, 0);
    var s := After(verify, run);
    forall i | 0 <= i < |s.tokens|
      ensures s.tokens[i].lastUsedAt == LastUse(s.events, s.tokens[i].tokenId)
    {
      StoredUseOfToken(s.tokens, i);
    }
  }

  // ---------------------------------------------------------------- revocation

  predicate AllRevoked(tokens: seq<Token>, id: string) {
    forall i :: 0 <= i < |tokens| && tokens[i].tokenId == id ==> tokens[i].revokedAt.Some?
  }

  /** The operation does not save the token afresh without its revocation. */
  predicate KeepsRevocation(op: Op, id: string) {
    op.OpSave? && op.record.tokenId == id ==> op.record.revokedAt.Some?
  }

  lemma StepKeepsRevokedIff(s: Store, verify: (string, string) -> bool, op: Op, id: string)
    requires DistinctIds(s.tokens) && AllRevoked(s.tokens, id)
    ensures AllRevoked(Apply(s, verify, op).tokens, id) <==> KeepsRevocation(op, id)
  {
    match op
    case OpSave(record) =>
      WithoutKeepsTheRest(s.tokens, record.tokenId);
      var rest := Without(s.tokens, record.tokenId);
      assert forall i :: 0 <= i < |rest| ==> rest[i] in rest;
      assert Save(s, record).tokens[|rest|] == record;
    case OpRecord(e) =>
    case OpRevoke(_, _, _) =>
    case OpAuthenticate(text, now) =>
  }

  lemma RevokedNeverAuthenticates(s: Store, verify: (string, string) -> bool, text: string, now: int, id: string)
    requires AllRevoked(s.tokens, id)
    ensures var r := Authenticate(s, verify, text, now).1;
      r.Success? ==> r.value.tokenId != Some(id)
  {
  }

  /**
   Once revoked, a token never authenticates again: not at any later point of any run in which nobody
   saves it anew without its revocation.
   */
  lemma {:induction false} RevocationIsForGood(verify: (string, string) -> bool, run: seq<Op>, n: nat, id: string,
          text: string, now: int)
    requires n <= |run| && AllRevoked(After(verify, run[..n]).tokens, id)
    requires forall i :: n <= i < |run| ==> KeepsRevocation(run[i], id)
    ensures AllRevoked(After(verify, run).tokens, id)
    ensures var r := Authenticate(After(verify, run), verify, text, now).1;
      r.Success? ==> r.value.tokenId != Some(id)
  {
    if n == |run| {
      assert run[..n] == run;
    } else {
      var before := run[..|run| - 1];
      assert before[..n] == run[..n];
      RevocationIsForGood(verify, before, n, id, text, now);
      IdsDistinctAndLogGrows(verify, before, 0);
      StepKeepsRevokedIff(After(verify, before), verify, run[|run| - 1], id);
    }
    RevokedNeverAuthenticates(After(verify, run), verify, text, now, id);
  }

  lemma {:induction false} SavesAreNotRepeated(run: seq<Op>, n: nat, i: nat, id: string)
    requires IssuesOnly(run) && n <= i < |run| && SavedIn(run[..n], id)
    ensures run[i].OpSave? ==> run[i].record.tokenId != id
  {
    if i < |run| - 1 {
      assert run[..|run| - 1][..n] == run[..n];
      SavesAreNotRepeated(run[..|run| - 1], n, i, id);
    } else {
      var k :| 0 <= k < n && run[..n][k].OpSave? && run[..n][k].record.tokenId == id;
      assert run[..|run| - 1][k] == run[..n][k];
    }
  }

  /** In such a run a stored token, once revoked, never authenticates again. */
  lemma RevokedForGoodWhenIssuedOnce(verify: (string, string) -> bool, run: seq<Op>, n: nat, id: string,
          text: string, now: int)
    requires IssuesOnly(run) && n <= |run|
    requires HasId(After(verify, run[..n]), id) && AllRevoked(After(verify, run[..n]).tokens, id)
    ensures var r := Authenticate(After(verify, run), verify, text, now).1;
      r.Success? ==> r.value.tokenId != Some(id)
  {
    StoredIdsWereSaved(verify, run[..n], id);
    forall i | n <= i < |run|
      ensures KeepsRevocation(run[i], id)
    {
      SavesAreNotRepeated(run, n, i, id);
    }
    RevocationIsForGood(verify, run, n, id, text, now);
  }

  /** A token is saved, revoked, and saved anew as it was. */
  function RevivingRun(t: Token, actor: Principal, now: int): seq<Op> {
    [OpSave(t), OpRevoke(t.tokenId, actor, now), OpSave(t)]
  }

  lemma AfterOneMore(verify: (string, string) -> bool, run: seq<Op>, op: Op)
    ensures After(verify, run + [op]) == Apply(After(verify, run), verify, op)
  {
    assert (run + [op])[..|run|] == run;
  }

  lemma RevivingRunUpToRevocation(verify: (string, string) -> bool, t: Token, actor: Principal, now: int)
    ensures After(verify, RevivingRun(t, actor, now)[..2]).tokens == [t.(revokedAt := Some(now))]
  {
    var run := RevivingRun(t, actor, now);
    AfterOneMore(verify, [], run[0]);
    assert [] + [run[0]] == run[..1] && Without([], t.tokenId) == [];
    AfterOneMore(verify, run[..1], run[1]);
    assert run[..1] + [run[1]] == run[..2];
    var saved := After(verify, run[..1]);
    assert saved.tokens == [t] && saved.tokens[0].tokenId == t.tokenId;
  }

  /** The save undoes the revocation: the token authenticates again. */
  lemma SavingAnewRevivesToken(verify: (string, string) -> bool, t: Token, text: string, actor: Principal, now: int,
          u: int)
    requires verify(text, t.tokenHash) && t.IsActive(u)
    ensures var s := After(verify, RevivingRun(t, actor, now)[..2]);
      HasId(s, t.tokenId) && AllRevoked(s.tokens, t.tokenId) && Authenticate(s, verify, text, u).1.Failure?
    ensures var r := Authenticate(After(verify, RevivingRun(t, actor, now)), verify, text, u).1;
      r.Success? && r.value.tokenId == Some(t.tokenId)
  {
    var run := RevivingRun(t, actor, now);
    RevivingRunUpToRevocation(verify, t, actor, now);
    var revoked := After(verify, run[..2]);
    assert revoked.tokens[0].tokenId == t.tokenId && revoked.tokens[..0] == [];
    AfterOneMore(verify, run[..2], run[2]);
    assert run[..2] + [run[2]] == run;
    assert Without(revoked.tokens, t.tokenId) == Without([], t.tokenId) == [];
    assert After(verify, run).tokens == [t];
  }

  // ---------------------------------------------------------------- one authentication

  /**
   The first token whose hash verifies decides. It is accepted exactly until the second it expires,
   unless revoked; the attempt is logged once, under its id and time, as a use or as a denial.
   */
  lemma AuthenticationTells(s: Store, verify: (string, string) -> bool, text: string, now: int, i: nat)
    requires i < |s.tokens| && verify(text, s.tokens[i].tokenHash)
    requires forall k :: 0 <= k < i ==> !verify(text, s.tokens[k].tokenHash)
    ensures var t, (s', r) := s.tokens[i], Authenticate(s, verify, text, now);
      && (r.Success? <==> t.revokedAt == None && (t.expiresAt.Some? ==> now < t.expiresAt.value))
      && (r.Success? ==>
        && r.value == Principal(t.createdBy, t.tenantId, {}, t.scopes, "api_token", Some(t.tokenId))
        && |s'.tokens| == |s.tokens| && s'.tokens[i] == t.(lastUsedAt := Some(now))
        && (forall k :: 0 <= k < |s.tokens| && s.tokens[k].tokenId != t.tokenId ==> s'.tokens[k] == s.tokens[k])
        && LastUse(s'.events, t.tokenId) == Some(now))
      && (r.Failure? ==> r.error == ExpiredOrRevoked && s'.tokens == s.tokens)
      && |s'.events| == |s.events| + 1 && s.events <= s'.events
      && var e := s'.events[|s.events|];
      && e.resource == t.tokenId && e.timestamp == now && e.tenantId == t.tenantId && e.subject == t.createdBy
      && e.eventType == (if r.Success? then "api_token.used" else "api_token.denied")
      && e.outcome == (if r.Success? then Allowed else Denied)
      && e.details == (if r.Success? then "" else "expired_or_revoked")
  {
    assert FirstVerified(s.tokens, verify, text, 0) == Some(i);
    LastUseAppend(s.events, UseEvent(s.tokens[i], now), s.tokens[i].tokenId);
  }

  /** A text that verifies against no stored hash is not found, and leaves no trace. */
  lemma UnknownTextIsNotFound(s: Store, verify: (string, string) -> bool, text: string, now: int)
    requires forall k :: 0 <= k < |s.tokens| ==> !verify(text, s.tokens[k].tokenHash)
    ensures Authenticate(s, verify, text, now) == (s, Failure(NotFound))
  {
  }

  lemma {:induction false} WithoutOne(tokens: seq<Token>, i: nat)
    requires DistinctIds(tokens) && i < |tokens|
    ensures Without(tokens, tokens[i].tokenId) == tokens[..i] + tokens[i + 1..]
  {
    var n, id := |tokens| - 1, tokens[i].tokenId;
    var init := tokens[..n];
    if i < n {
      WithoutOne(init, i);
      assert tokens[n].tokenId != id;
      assert init[..i] == tokens[..i] && init[i + 1..] + [tokens[n]] == tokens[i + 1..];
    } else {
      WithoutNothing(init, id);
    }
  }

  lemma {:induction false} WithoutNothing(tokens: seq<Token>, id: string)
    requires forall i :: 0 <= i < |tokens| ==> tokens[i].tokenId != id
    ensures Without(tokens, id) == tokens
  {
    if tokens != [] { WithoutNothing(tokens[..|tokens| - 1], id); }
  }

  /** A save takes out what was stored under the id, at `i`, and puts the record last; the others keep their order. */
  lemma SaveTells(s: Store, record: Token, i: nat)
    requires DistinctIds(s.tokens) && i <= |s.tokens|
    requires if i < |s.tokens| then s.tokens[i].tokenId == record.tokenId else !HasId(s, record.tokenId)
    ensures Save(s, record).events == s.events
    ensures Save(s, record).tokens ==
      (if i < |s.tokens| then s.tokens[..i] + s.tokens[i + 1..] else s.tokens) + [record]
  {
    if i < |s.tokens| { WithoutOne(s.tokens, i); } else { WithoutNothing(s.tokens, record.tokenId); }
  }

  // ---------------------------------------------------------------- the store in place

  class JsonTokenAuditStore {
    var tokens: seq<Token>
    var events: seq<AuditEvent>
    const verify: (string, string) -> bool
    ghost var run: seq<Op>

    function State(): Store
      reads this
    {
      Store(tokens, events)
    }

    ghost predicate Valid()
      reads this
    {
      State() == After(verify, run)
    }

    constructor (verify: (string, string) -> bool)
      ensures Valid() && run == [] && this.verify == verify
    {
      this.verify, tokens, events, run := verify, [], [], [];
    }

    ghost method Record(op: Op)
      requires State() == Apply(After(verify, run), verify, op)
      modifies this`run
      ensures Valid() && run == old(run) + [op]
    {
      assert (run + [op])[..|run|] == run;
      run := run + [op];
    }

    method SaveToken(record: Token)
      requires Valid()
      modifies this
      ensures Valid() && run == old(run) + [OpSave(record)] && State() == Save(old(State()), record)
      ensures events == old(events) && tokens != [] && tokens[|tokens| - 1] == record
    {
      var kept: seq<Token> := [];
      for i := 0 to |tokens|
        invariant kept == Without(tokens[..i], record.tokenId)
        invariant State() == old(State()) && run == old(run)
      {
        assert tokens[..i + 1][..i] == tokens[..i];
        if tokens[i].tokenId != record.tokenId { kept := kept + [tokens[i]]; }
      }
      assert tokens[..|tokens|] == tokens;
      tokens := kept + [record];
      Record(OpSave(record));
    }

    method RecordAuditEvent(event: AuditEvent)
      requires Valid()
      modifies this
      ensures Valid() && run == old(run) + [OpRecord(event)]
      ensures tokens == old(tokens) && events == old(events) + [event]
    {
      events := events + [event];
      Record(OpRecord(event));
    }

    /** The tokens with `id` marked revoked, and the last one marked. */
    method MarkRevoked(id: string, now: int) returns (updated: seq<Token>, replacement: Option<Token>)
      ensures updated == Revoked(tokens, id, now)
      ensures replacement.Some? <==> HasId(State(), id)
      ensures replacement.Some? ==>
        replacement.value in updated && replacement.value.tokenId == id && replacement.value.revokedAt == Some(now)
    {
      updated, replacement := [], None;
      for i := 0 to |tokens|
        invariant |updated| == i && updated == Revoked(tokens, id, now)[..i]
        invariant replacement.Some? <==> exists k :: 0 <= k < i && tokens[k].tokenId == id
        invariant replacement.Some? ==>
          replacement.value in updated && replacement.value.tokenId == id && replacement.value.revokedAt == Some(now)
      {
        if tokens[i].tokenId == id {
          replacement := Some(tokens[i].(revokedAt := Some(now)));
          updated := updated + [replacement.value];
        } else {
          updated := updated + [tokens[i]];
        }
      }
    }

    method RevokeToken(id: string, actor: Principal, now: int) returns (r: Result<Token, AuthError>)
      requires Valid()
      modifies this
      ensures Valid() && run == old(run) + [OpRevoke(id, actor, now)]
      ensures r.Success? <==> exists i :: 0 <= i < |old(tokens)| && old(tokens)[i].tokenId == id
      ensures r.Success? ==>
        && Success(State()) == Revoke(old(State()), id, actor, now)
        && r.value in tokens && r.value.tokenId == id && r.value.revokedAt == Some(now)
        && AllRevoked(tokens, id) && |tokens| == |old(tokens)|
        && (forall i :: 0 <= i < |tokens| ==>
          var t := old(tokens)[i]; tokens[i] == if t.tokenId == id then t.(revokedAt := Some(now)) else t)
        && events == old(events)
          + [AuditEvent("api_token.revoked", Allowed, actor.tenantId, actor.subject, id, now, "")]
      ensures r.Failure? ==> r.error == NotFound && State() == old(State())
    {
      var updated, replacement := MarkRevoked(id, now);
      if replacement.None? {
        r := Failure(NotFound);
      } else {
        tokens := updated;
        events := events + [AuditEvent("api_token.revoked", Allowed, actor.tenantId, actor.subject, id, now, "")];
        r := Success(replacement.value);
      }
      Record(OpRevoke(id, actor, now));
    }

    method PrincipalFromToken(text: string, now: int) returns (r: Result<Principal, AuthError>)
      requires Valid()
      modifies this
      ensures Valid() && run == old(run) + [OpAuthenticate(text, now)]
      ensures (State(), r) == Authenticate(old(State()), verify, text, now)
    {
      for i := 0 to |tokens|
        invariant FirstVerified(tokens, verify, text, 0) == FirstVerified(tokens, verify, text, i)
        invariant State() == old(State()) && run == old(run)
      {
        if !verify(text, tokens[i].tokenHash) { continue; }
        var record := tokens[i];
        if !record.IsActive(now) {
          events := events + [DenyEvent(record, now)];
          Record(OpAuthenticate(text, now));
          return Failure(ExpiredOrRevoked);
        }
        tokens := Used(tokens, record, now);
        events := events + [UseEvent(record, now)];
        Record(OpAuthenticate(text, now));
        return Success(PrincipalOf(record));
      }
      Record(OpAuthenticate(text, now));
      r := Failure(NotFound);
    }
  }
}
