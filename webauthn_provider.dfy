/**
 * `WebAuthnProvider`: the TYPO3 multi-factor provider. It keeps its state in
 * the user's provider properties (`active`, the credential table, pending
 * `creationOptions`/`lastRequest`, `userEntity`, `attempts`, `lastUsed`) and
 * moves between inactive and active as credentials are added and removed.
 *
 * The provider hands responses to the WebAuthn library's own server class;
 * what that library decides about a response enters the model as a
 * parameter: the source it accepts, or none when it throws.
 */
module MfaProvider {
  import opened Wrappers
  import opened Php
  import opened WebAuthn
  import opened CredentialTable
  import opened Host
  import opened CredentialRepository
  import opened WebauthnServer

  // ---------------------------------------------------------------------------
  // Property and parameter names
  // ---------------------------------------------------------------------------

  const ACTIVE: string := "active"
  const CREATION_OPTIONS: string := "creationOptions"
  const USER_ENTITY: string := "userEntity"
  const LAST_REQUEST: string := "lastRequest"
  const ATTEMPTS: string := "attempts"
  const LAST_USED: string := "lastUsed"

  const ACTION_PARAMETER: string := "webauthn_action"
  const PUBLIC_KEY_PARAMETER: string := "webauthn_publicKeyCredential"
  const DESCRIPTION_PARAMETER: string := "webauthn_publicKeyDescription"
  const ICON_PARAMETER: string := "webauthn_publicKeyIcon"

  /** The relying party name the provider announces. */
  const RP_NAME: string := "TYPO3 Backend"

  // ---------------------------------------------------------------------------
  // Request parameters
  // ---------------------------------------------------------------------------

  /** `$query[$name] ?? $body[$name] ?? ''`: the query wins over the parsed body. */
  function RawParameter(request: Request, name: string): string {
    if name in request.query then request.query[name]
    else if name in request.parsedBody then request.parsedBody[name]
    else ""
  }

  /** `trim((string)($query[$name] ?? $body[$name] ?? ''))`. */
  function RequestParameter(request: Request, name: string): (r: string)
    ensures Trimmed(r)
    ensures name !in request.query && name !in request.parsedBody ==> r == ""
  {
    Trim(if name in request.query then request.query[name]
         else if name in request.parsedBody then request.parsedBody[name]
         else "")
  }

  /** Every getter reads the raw parameter and trims it. */
  lemma RequestParameterTrimsRaw(request: Request, name: string)
    ensures RequestParameter(request, name) == Trim(RawParameter(request, name))
  {
  }

  /** Surrounding white space in the posted value is dropped and nothing else is. */
  lemma RequestParameterStripsPadding(request: Request, name: string, p: string, c: string, q: string)
    requires RawParameter(request, name) == p + c + q
    requires AllBlank(p) && AllBlank(q) && Trimmed(c)
    ensures RequestParameter(request, name) == c
  {
    TrimRemovesExactlyPadding(p, c, q);
  }

  function Action(request: Request): string { RequestParameter(request, ACTION_PARAMETER) }
  function PublicKeyCredentialData(request: Request): string { RequestParameter(request, PUBLIC_KEY_PARAMETER) }
  function Description(request: Request): string { RequestParameter(request, DESCRIPTION_PARAMETER) }
  function Icon(request: Request): string { RequestParameter(request, ICON_PARAMETER) }

  /**
   * `canProcess`: a credential was posted, that is, the posted value is not
   * all white space.
   */
  predicate CanProcess(request: Request)
    ensures CanProcess(request) <==> !AllBlank(RawParameter(request, PUBLIC_KEY_PARAMETER))
  {
    TrimEmptyIffBlank(RawParameter(request, PUBLIC_KEY_PARAMETER));
    PublicKeyCredentialData(request) != ""
  }

  // ---------------------------------------------------------------------------
  // The user entity
  // ---------------------------------------------------------------------------

  /** A column of the user's row; null columns and a missing row read as absent. */
  function Column(user: HostUser, name: string): Option<string> {
    if user.row.Some? && name in user.row.value then Some(user.row.value[name]) else None
  }

  /** `$user->loginType ?: 'BE'`. */
  function LoginTypeOf(user: HostUser): (r: string)
    ensures IsTruthyString(r)
    ensures IsTruthyString(user.loginType) ==> r == user.loginType
    ensures !IsTruthyString(user.loginType) ==> r == "BE"
  {
    if IsTruthyString(user.loginType) then user.loginType else "BE"
  }

  /** `$userData['uid']` as it is concatenated: a missing uid is the empty string. */
  function Uid(user: HostUser): string {
    Column(user, "uid").GetOr("")
  }

  /** `createUserEntity`: the WebAuthn user entity of the logged-in user. */
  function CreateUserEntity(user: HostUser): (u: UserEntity)
    ensures |u.id| > |LoginTypeOf(user)| && u.id[..|LoginTypeOf(user)|] == LoginTypeOf(user)
    ensures u.id[|LoginTypeOf(user)|] == ':' && u.id[|LoginTypeOf(user)| + 1..] == Uid(user)
    ensures Column(user, "username").Some? ==> u.name == Column(user, "username").value
    ensures Column(user, "username").None? && Column(user, "email").Some? ==> u.name == Column(user, "email").value
    ensures Column(user, "username").None? && Column(user, "email").None? ==> u.name == ""
    ensures IsTruthyString(Column(user, "realName").GetOr("")) ==> u.displayName == Column(user, "realName").value
    ensures !IsTruthyString(Column(user, "realName").GetOr("")) ==> u.displayName == u.name
    ensures u.displayName == "" <==> u.name == "" && !IsTruthyString(Column(user, "realName").GetOr(""))
  {
    var userName := if Column(user, "username").Some? then Column(user, "username").value
                    else Column(user, "email").GetOr("");
    var realName := Column(user, "realName").GetOr("");
    var displayName := if IsTruthyString(realName) then realName else userName;
    UserEntity(userName, LoginTypeOf(user) + ":" + Uid(user), displayName)
  }

  /** Two strings joined by a separator that occurs in neither left part split back uniquely. */
  lemma SplitAtSeparator(x: string, y: string, x': string, y': string)
    requires ':' !in x && ':' !in x'
    requires x + ":" + y == x' + ":" + y'
    ensures x == x' && y == y'
  {
    var s := x + ":" + y;
    assert forall i :: 0 <= i < |x| ==> s[i] == x[i];
    assert forall i :: 0 <= i < |x'| ==> s[i] == x'[i];
    assert s[|x|] == ':' && s[|x'|] == ':';
    assert |x| == |x'|;
    assert x == s[..|x|] == x';
    assert y == s[|x| + 1..] == y';
  }

  /**
   * The user handle identifies the login type and the uid, as long as login
   * types contain no ":".
   */
  lemma UserHandleIdentifiesUser(a: HostUser, b: HostUser)
    requires ':' !in LoginTypeOf(a) && ':' !in LoginTypeOf(b)
    ensures CreateUserEntity(a).id == CreateUserEntity(b).id <==> LoginTypeOf(a) == LoginTypeOf(b) && Uid(a) == Uid(b)
  {
    if CreateUserEntity(a).id == CreateUserEntity(b).id {
      SplitAtSeparator(LoginTypeOf(a), Uid(a), LoginTypeOf(b), Uid(b));
    }
  }

  // ---------------------------------------------------------------------------
  // The secured relying party rule: preg_match('/^(.+\.)?localhost$/', $host)
  // ---------------------------------------------------------------------------

  const LOCALHOST: string := "localhost"

  /** The optional group `(.+\.)`: at least one character other than a newline, then a dot. */
  predicate SubdomainGroup(g: string) {
    g == [] || (|g| >= 2 && g[|g| - 1] == '.' && forall k :: 0 <= k < |g| ==> g[k] != '\n')
  }

  /** "localhost" ends at position `n` of the host, right after a subdomain group. */
  predicate LocalhostEndsAt(host: string, n: int) {
    9 <= n <= |host| && host[n - 9..n] == LOCALHOST && SubdomainGroup(host[..n - 9])
  }

  /**
   * The pattern read off the regular expression: a subdomain group, then
   * "localhost" ending at the end of the host or, as `$` also matches
   * before a final newline, just before one.
   */
  predicate LocalhostPattern(host: string) {
    exists n :: 0 <= n <= |host| && LocalhostEndsAt(host, n) && (n == |host| || (n == |host| - 1 && host[n] == '\n'))
  }

  /** "localhost", or ".localhost" after a newline-free label, with nothing after it. */
  predicate EndsAsLocalhost(t: string) {
    t == LOCALHOST
    || (|t| > 10 && t[|t| - 10..] == "." + LOCALHOST && forall k :: 0 <= k < |t| - 10 ==> t[k] != '\n')
  }

  /** The check `createWebauthnServer` makes, without quantifying over match positions. */
  predicate MatchesLocalhost(host: string) {
    EndsAsLocalhost(host) || (|host| > 0 && host[|host| - 1] == '\n' && EndsAsLocalhost(host[..|host| - 1]))
  }

  lemma EndsAsLocalhostIff(t: string)
    ensures EndsAsLocalhost(t) <==> LocalhostEndsAt(t, |t|)
  {
    if LocalhostEndsAt(t, |t|) {
      var g := t[..|t| - 9];
      assert t == g + LOCALHOST;
      if g != [] {
        assert t[|t| - 10..] == [g[|g| - 1]] + LOCALHOST;
        forall k | 0 <= k < |t| - 10 ensures t[k] != '\n' {
          assert t[k] == g[k];
        }
      }
    }
    if |t| > 10 && t[|t| - 10..] == "." + LOCALHOST && forall k :: 0 <= k < |t| - 10 ==> t[k] != '\n' {
      var g := t[..|t| - 9];
      assert t[|t| - 9..] == t[|t| - 10..][1..];
      assert g[|g| - 1] == t[|t| - 10];
      forall k | 0 <= k < |g| ensures g[k] != '\n' {
        if k < |g| - 1 {
          assert g[k] == t[k];
        }
      }
    }
  }

  /** A match that ends just before the last character is a match of the host without it. */
  lemma LocalhostEndsBeforeLast(host: string)
    requires |host| > 0
    ensures LocalhostEndsAt(host, |host| - 1) <==> LocalhostEndsAt(host[..|host| - 1], |host| - 1)
  {
    var t := host[..|host| - 1];
    if |t| >= 9 {
      assert t[|t| - 9..] == host[|host| - 10..|host| - 1];
      assert t[..|t| - 9] == host[..|host| - 10];
    }
  }

  lemma PatternMatches(host: string)
    requires LocalhostPattern(host)
    ensures MatchesLocalhost(host)
  {
    var n :| 0 <= n <= |host| && LocalhostEndsAt(host, n) && (n == |host| || (n == |host| - 1 && host[n] == '\n'));
    if n == |host| {
      EndsAsLocalhostIff(host);
      assert EndsAsLocalhost(host);
    } else {
      var t := host[..|host| - 1];
      LocalhostEndsBeforeLast(host);
      assert LocalhostEndsAt(t, |t|);
      EndsAsLocalhostIff(t);
      assert host[|host| - 1] == '\n' && EndsAsLocalhost(t);
    }
  }

  lemma MatchesPattern(host: string)
    requires MatchesLocalhost(host)
    ensures LocalhostPattern(host)
  {
    if EndsAsLocalhost(host) {
      EndsAsLocalhostIff(host);
      assert LocalhostEndsAt(host, |host|);
    } else {
      EndsAsLocalhostIff(host[..|host| - 1]);
      LocalhostEndsBeforeLast(host);
      assert LocalhostEndsAt(host, |host| - 1);
    }
  }

  /** The computed check agrees with the regular expression on every host. */
  lemma MatchesLocalhostIffPattern(host: string)
    ensures MatchesLocalhost(host) <==> LocalhostPattern(host)
  {
    if LocalhostPattern(host) {
      PatternMatches(host);
    }
    if MatchesLocalhost(host) {
      MatchesPattern(host);
    }
  }

  // ---------------------------------------------------------------------------
  // The provider's state over its properties
  // ---------------------------------------------------------------------------

  /** `isActive`: `active` is truthy and at least one credential is stored. */
  predicate ActiveProperties(props: map<string, Value>) {
    (match Property(props, ACTIVE) case Some(v) => Truthy(v) case None => false)
    && |StoredTable(props)| > 0
  }

  /** An active provider has `active` set to a truthy value and a non-empty credential table stored. */
  lemma ActiveMeansStoredCredentials(props: map<string, Value>)
    ensures ActiveProperties(props) <==>
              && ACTIVE in props && Truthy(props[ACTIVE])
              && PROPERTY in props && props[PROPERTY].Sources? && |props[PROPERTY].table| > 0
  {
  }

  /** `getProperty('attempts', 0)`. */
  function Attempts(props: map<string, Value>): int {
    match Property(props, ATTEMPTS)
    case Some(Int(n)) => n
    case _ => 0
  }

  /** The properties after a credential was added: stored, `active` set, `creationOptions` cleared. */
  function AfterAdd(props: map<string, Value>, s: Source, description: string, icon: string, now: int): map<string, Value> {
    props[PROPERTY := Sources(Put(StoredTable(props), KeyOf(s.publicKeyCredentialId), AddedEntry(s, description, icon, now)))]
      + map[ACTIVE := Bool(true), CREATION_OPTIONS := Null]
  }

  /** The properties after a credential was removed. */
  function AfterRemove(props: map<string, Value>, s: Source): map<string, Value> {
    props[PROPERTY := Sources(Remove(StoredTable(props), KeyOf(s.publicKeyCredentialId)))]
  }

  /** Adding a credential activates the provider, stores the source, and clears the pending options. */
  lemma AddActivates(props: map<string, Value>, s: Source, description: string, icon: string, now: int)
    ensures var after := AfterAdd(props, s, description, icon, now);
            && ActiveProperties(after)
            && LookupSource(StoredTable(after), s.publicKeyCredentialId) == Some(s)
            && Property(after, CREATION_OPTIONS).None?
  {
    var t := StoredTable(props);
    var after := AfterAdd(props, s, description, icon, now);
    assert StoredTable(after) == Put(t, KeyOf(s.publicKeyCredentialId), AddedEntry(s, description, icon, now));
    LookupAfterAdd(t, s, description, icon, now, s.publicKeyCredentialId);
  }

  /**
   * The properties after a successful verification: the accepted source is
   * saved over its entry (its new signature counter) and `lastUsed` is set.
   */
  function AfterVerify(props: map<string, Value>, s: Source, now: int): map<string, Value> {
    var t, k := StoredTable(props), KeyOf(s.publicKeyCredentialId);
    props[PROPERTY := Sources(Put(t, k, SavedEntry(Get(t, k), s, now)))][LAST_USED := Int(now)]
  }

  /**
   * A successful verification records the use: the accepted source is what
   * its ID now finds, every other ID finds what it found before, `lastUsed`
   * is the time, and an active provider stays active.
   */
  lemma VerifyRecordsUse(props: map<string, Value>, s: Source, now: int, id: seq<byte>)
    ensures var after := AfterVerify(props, s, now);
            && LookupSource(StoredTable(after), id) == (if id == s.publicKeyCredentialId then Some(s) else LookupSource(StoredTable(props), id))
            && Property(after, LAST_USED) == Some(Int(now))
            && (ActiveProperties(props) ==> ActiveProperties(after))
  {
    var t, k := StoredTable(props), KeyOf(s.publicKeyCredentialId);
    assert StoredTable(AfterVerify(props, s, now)) == Put(t, k, SavedEntry(Get(t, k), s, now));
    LookupAfterSave(t, s, now, id);
  }

  /**
   * The successful end of `verify`: the library saves the accepted source
   * through the repository, then `lastUsed` is written.
   */
  method RecordUse(repository: PublicKeyCredentialSourceRepository, s: Source, now: int)
    requires repository.propertyManager.Valid()
    modifies repository.propertyManager
    ensures repository.propertyManager.Valid() && repository.propertyManager.hasEntry
    ensures repository.propertyManager.properties == AfterVerify(old(repository.propertyManager.properties), s, now)
  {
    var pm := repository.propertyManager;
    repository.SaveCredentialSource(s, now);
    var _ := pm.UpdateProperties(map[LAST_USED := Int(now)]);
  }

  /** Removing the only stored credential makes the provider inactive, and the credential is gone. */
  lemma RemovingLastDeactivates(props: map<string, Value>, s: Source)
    requires DistinctKeys(StoredTable(props)) && |StoredTable(props)| == 1
    requires HasKey(StoredTable(props), KeyOf(s.publicKeyCredentialId))
    ensures !ActiveProperties(AfterRemove(props, s))
    ensures LookupSource(StoredTable(AfterRemove(props, s)), s.publicKeyCredentialId).None?
  {
    var t := StoredTable(props);
    RemoveLength(t, KeyOf(s.publicKeyCredentialId));
    assert StoredTable(AfterRemove(props, s)) == Remove(t, KeyOf(s.publicKeyCredentialId));
    LookupAfterRemove(t, s.publicKeyCredentialId, s.publicKeyCredentialId);
  }

  /**
   * `createFromArray($propertyManager->getProperty($key))` succeeds: the
   * property holds the stored record it expects (a missing one is null,
   * which the strictly typed factory rejects).
   */
  predicate StoresCreationOptions(props: map<string, Value>) {
    Property(props, CREATION_OPTIONS).Some? && Property(props, CREATION_OPTIONS).value.StoredCreationOptions?
  }

  predicate StoresUserEntity(props: map<string, Value>) {
    Property(props, USER_ENTITY).Some? && Property(props, USER_ENTITY).value.StoredUserEntity?
  }

  predicate StoresRequestOptions(props: map<string, Value>) {
    Property(props, LAST_REQUEST).Some? && Property(props, LAST_REQUEST).value.StoredRequestOptions?
  }

  /** The exception that escapes `addCredentials` before the library is asked, if any. */
  function AddCredentialsThrows(props: map<string, Value>, request: Request): Option<Error> {
    if !StoresCreationOptions(props) then
      Some(MissingStoredValue(CREATION_OPTIONS))
    else if request.normalizedHost.None? then
      Some(MissingNormalizedParams)
    else None
  }

  /** `removeCredentials` succeeds: the posted source decodes and its key is stored. */
  predicate Removable(props: map<string, Value>, removal: Option<Source>) {
    removal.Some? && HasKey(StoredTable(props), KeyOf(removal.value.publicKeyCredentialId))
  }

  /**
   * What `update` leaves behind: the properties after the dispatched action
   * (`before` when it failed or was neither "add" nor "remove"), and the
   * status that action reports.
   */
  function Dispatch(before: map<string, Value>, request: Request, attestation: Option<Source>,
                    removal: Option<Source>, now: int, writesSucceed: bool): (map<string, Value>, bool)
  {
    if Action(request) == "add" then
      if attestation.Some? then
        (AfterAdd(before, attestation.value, Description(request), Icon(request), now), writesSucceed)
      else (before, false)
    else if Action(request) == "remove" then
      if Removable(before, removal) then (AfterRemove(before, removal.value), true) else (before, false)
    else (before, true)
  }

  /**
   * The outcome of `update`: nothing happens without a posted credential; an
   * add whose stored options or host are missing throws and writes nothing;
   * otherwise the action is applied and, if the provider is then inactive,
   * the entry is deleted, a failed delete turning the status false.
   */
  ghost predicate UpdateOutcome(
    before: map<string, Value>, beforeEntry: bool, after: map<string, Value>, afterEntry: bool,
    writesSucceed: bool, request: Request, attestation: Option<Source>, removal: Option<Source>,
    now: int, r: Result<bool, Error>)
  {
    if !CanProcess(request) then
      r == Success(false) && after == before && afterEntry == beforeEntry
    else if Action(request) == "add" && AddCredentialsThrows(before, request).Some? then
      r == Failure(AddCredentialsThrows(before, request).value) && after == before && afterEntry == beforeEntry
    else
      var (mid, status) := Dispatch(before, request, attestation, removal, now, writesSucceed);
      if ActiveProperties(mid) then
        r == Success(status) && after == mid && afterEntry
      else
        r == Success(status && writesSucceed) && after == map[] && !afterEntry
  }

  /** `array_map(fn ($c) => $c->getPublicKeyCredentialDescriptor(), $sources)`. */
  function Descriptors(sources: seq<Source>): (r: seq<Descriptor>)
    ensures |r| == |sources| && forall i :: 0 <= i < |sources| ==> r[i] == DescriptorOf(sources[i])
  {
    seq(|sources|, i requires 0 <= i < |sources| => DescriptorOf(sources[i]))
  }

  /** One public-key parameter per default algorithm, in the default order. */
  const DefaultParameters: seq<CredentialParameters> := [
    CredentialParameters(PUBLIC_KEY, -257), CredentialParameters(PUBLIC_KEY, -259),
    CredentialParameters(PUBLIC_KEY, -37), CredentialParameters(PUBLIC_KEY, -39),
    CredentialParameters(PUBLIC_KEY, -7), CredentialParameters(PUBLIC_KEY, -36),
    CredentialParameters(PUBLIC_KEY, -8)]

  /** A parameter list built one entry per default identifier is the default parameter list. */
  lemma DefaultParametersFrom(parameters: seq<CredentialParameters>, ids: seq<int>)
    requires ids == [-257, -259, -37, -39, -7, -36, -8]
    requires |parameters| == |ids| && forall k :: 0 <= k < |ids| ==> parameters[k] == CredentialParameters(PUBLIC_KEY, ids[k])
    ensures parameters == DefaultParameters
  {
  }

  // ---------------------------------------------------------------------------
  // The provider
  // ---------------------------------------------------------------------------

  class WebAuthnProvider {
    const userVerification: string
    const authenticatorAttachment: Option<string>

    /** By default user verification is "discouraged" and there is no attachment preference. */
    constructor (userVerification: string := USER_VERIFICATION_DISCOURAGED, authenticatorAttachment: Option<string> := None)
      ensures this.userVerification == userVerification
      ensures this.authenticatorAttachment == authenticatorAttachment
    {
      this.userVerification := userVerification;
      this.authenticatorAttachment := authenticatorAttachment;
    }

    /** `isActive`. */
    predicate IsActive(pm: PropertyManager)
      reads pm
      ensures pm.Valid() && !pm.hasEntry ==> !IsActive(pm)
    {
      ActiveProperties(pm.properties)
    }

    /** `isLocked`: the provider never locks. */
    function IsLocked(pm: PropertyManager): (locked: bool)
      ensures !locked
    {
      false
    }

    /** `unlock`: there is never anything to unlock, so `attempts` is never reset. */
    method Unlock(request: Request, pm: PropertyManager) returns (ok: bool)
      ensures !ok
    {
      ok := false;
    }

    /** `deactivate`: delete the provider entry of an active provider. */
    method Deactivate(request: Request, pm: PropertyManager) returns (ok: bool)
      requires pm.Valid()
      modifies pm
      ensures pm.Valid()
      ensures !old(IsActive(pm)) ==> !ok && unchanged(pm)
      ensures old(IsActive(pm)) ==> ok == pm.writesSucceed && !pm.hasEntry && pm.properties == map[]
    {
      if !IsActive(pm) {
        return false;
      }
      ok := pm.DeleteProviderEntry();
    }

    /** `createWebauthnServer`: a server for the request's host, which is secured when it is a localhost name. */
    method CreateWebauthnServer(request: Request, pm: PropertyManager) returns (r: Result<Server, Error>)
      ensures r.Failure? <==> request.normalizedHost.None?
      ensures r.Failure? ==> r.error == MissingNormalizedParams
      ensures r.Success? ==>
                var server, host := r.value, request.normalizedHost.value;
                && fresh(server)
                && server.rpEntity == RpEntity(RP_NAME, host)
                && server.repository.propertyManager == pm
                && server.timeout == DEFAULT_TIMEOUT && server.challengeSize == DEFAULT_CHALLENGE_SIZE
                && server.algorithms == DefaultRegistry && server.selectedAlgorithms == DefaultSelection
                && server.securedRelyingPartyId == if MatchesLocalhost(host) then [host] else []
    {
      if request.normalizedHost.None? {
        return Failure(MissingNormalizedParams);
      }
      var id := request.normalizedHost.value;
      var repository := new PublicKeyCredentialSourceRepository(pm);
      var server := new Server(RpEntity(RP_NAME, id), repository);
      if MatchesLocalhost(id) {
        var _ := server.SetSecuredRelyingPartyId([id]);
      }
      return Success(server);
    }

    /**
     * `addCredentials`. `attestation` is the source the library accepts for
     * the posted credential, or none when it throws.
     */
    method AddCredentials(request: Request, pm: PropertyManager, attestation: Option<Source>, now: int)
      returns (r: Result<bool, Error>)
      requires pm.Valid()
      modifies pm
      ensures pm.Valid()
      ensures AddCredentialsThrows(old(pm.properties), request).Some? ==>
                r == Failure(AddCredentialsThrows(old(pm.properties), request).value) && unchanged(pm)
      ensures AddCredentialsThrows(old(pm.properties), request).None? && attestation.None? ==>
                r == Success(false) && unchanged(pm)
      ensures AddCredentialsThrows(old(pm.properties), request).None? && attestation.Some? ==>
                && r == Success(pm.writesSucceed)
                && pm.hasEntry
                && pm.properties == AfterAdd(old(pm.properties), attestation.value, Description(request), Icon(request), now)
    {
      var description := Description(request);
      var icon := Icon(request);
      var stored := pm.GetProperty(CREATION_OPTIONS);
      if !(stored.Some? && stored.value.StoredCreationOptions?) {
        return Failure(MissingStoredValue(CREATION_OPTIONS));
      }
      var webauthn := CreateWebauthnServer(request, pm);
      if webauthn.Failure? {
        return Failure(webauthn.error);
      }
      if attestation.None? {
        return Success(false);
      }
      var repository := new PublicKeyCredentialSourceRepository(pm);
      repository.AddCredentialSource(attestation.value, description, icon, now);
      var ok := UpdateOrCreate(pm, map[ACTIVE := Bool(true), CREATION_OPTIONS := Null]);
      return Success(ok);
    }

    /**
     * `removeCredentials`. `removal` is the source decoded from the posted
     * JSON, or none when decoding throws.
     */
    method RemoveCredentials(request: Request, pm: PropertyManager, removal: Option<Source>) returns (ok: bool)
      requires pm.Valid()
      modifies pm
      ensures pm.Valid()
      ensures ok == Removable(old(pm.properties), removal)
      ensures !ok ==> unchanged(pm)
      ensures ok ==> pm.hasEntry && pm.properties == AfterRemove(old(pm.properties), removal.value)
    {
      if removal.None? {
        return false;
      }
      var repository := new PublicKeyCredentialSourceRepository(pm);
      var outcome := repository.RemoveCredentialSource(removal.value);
      return outcome.Pass?;
    }

    /** `update`: run the posted action, then drop the entry of a provider that is no longer active. */
    method Update(request: Request, pm: PropertyManager, attestation: Option<Source>, removal: Option<Source>, now: int)
      returns (r: Result<bool, Error>)
      requires pm.Valid()
      modifies pm
      ensures pm.Valid()
      ensures UpdateOutcome(old(pm.properties), old(pm.hasEntry), pm.properties, pm.hasEntry, pm.writesSucceed,
                            request, attestation, removal, now, r)
    {
      if !CanProcess(request) {
        return Success(false);
      }
      ghost var before := pm.properties;
      ghost var dispatched := Dispatch(before, request, attestation, removal, now, pm.writesSucceed);
      var action := Action(request);
      var status := true;
      if action == "add" {
        var added := AddCredentials(request, pm, attestation, now);
        if added.Failure? {
          return Failure(added.error);
        }
        status := added.value;
      }
      if action == "remove" {
        status := RemoveCredentials(request, pm, removal);
      }
      assert pm.properties == dispatched.0 && status == dispatched.1;
      status := DeleteIfInactive(pm, status);
      return Success(status);
    }

    /** The end of `update`: an inactive provider's entry is deleted, and a failed delete turns the status false. */
    method DeleteIfInactive(pm: PropertyManager, status: bool) returns (s: bool)
      requires pm.Valid()
      modifies pm
      ensures pm.Valid()
      ensures ActiveProperties(old(pm.properties)) ==> s == status && unchanged(pm) && pm.hasEntry
      ensures !ActiveProperties(old(pm.properties)) ==>
                s == (status && pm.writesSucceed) && pm.properties == map[] && !pm.hasEntry
    {
      s := status;
      if !IsActive(pm) {
        var deleted := pm.DeleteProviderEntry();
        if !deleted {
          s := false;
        }
      }
    }

    /** `activate`: nothing to do for an active provider, otherwise `update`. */
    method Activate(request: Request, pm: PropertyManager, attestation: Option<Source>, removal: Option<Source>, now: int)
      returns (r: Result<bool, Error>)
      requires pm.Valid()
      modifies pm
      ensures pm.Valid()
      ensures old(IsActive(pm)) ==> r == Success(true) && unchanged(pm)
      ensures !old(IsActive(pm)) ==>
                UpdateOutcome(old(pm.properties), old(pm.hasEntry), pm.properties, pm.hasEntry, pm.writesSucceed,
                              request, attestation, removal, now, r)
    {
      if IsActive(pm) {
        return Success(true);
      }
      r := Update(request, pm, attestation, removal, now);
    }

    /**
     * `verify`. The stored user entity and request options must exist and
     * the request must carry its host; `assertion` is the source the library
     * accepts for the posted credential, or none when it throws. On
     * acceptance the library writes the updated source (its new signature
     * counter) back through the repository over `pm` before `lastUsed` is
     * set; neither outcome clears `lastRequest`.
     */
    method Verify(request: Request, pm: PropertyManager, assertion: Option<Source>, now: int)
      returns (r: Result<bool, Error>)
      requires pm.Valid()
      modifies pm
      ensures pm.Valid()
      ensures r.Failure? ==> unchanged(pm)
      ensures !StoresUserEntity(old(pm.properties)) ==> r == Failure(MissingStoredValue(USER_ENTITY))
      ensures StoresUserEntity(old(pm.properties)) && !StoresRequestOptions(old(pm.properties)) ==>
                r == Failure(MissingStoredValue(LAST_REQUEST))
      ensures StoresUserEntity(old(pm.properties)) && StoresRequestOptions(old(pm.properties))
              && request.normalizedHost.None? ==>
                r == Failure(MissingNormalizedParams)
      ensures r.Success? <==>
                StoresUserEntity(old(pm.properties)) && StoresRequestOptions(old(pm.properties)) && request.normalizedHost.Some?
      ensures r.Success? ==> r.value == assertion.Some? && pm.hasEntry
      ensures r == Success(false) ==>
                pm.properties == old(pm.properties)[ATTEMPTS := Int(Attempts(old(pm.properties)) + 1)]
      ensures r == Success(true) ==> pm.properties == AfterVerify(old(pm.properties), assertion.value, now)
    {
      var storedUser := pm.GetProperty(USER_ENTITY);
      if !(storedUser.Some? && storedUser.value.StoredUserEntity?) {
        return Failure(MissingStoredValue(USER_ENTITY));
      }
      var storedRequest := pm.GetProperty(LAST_REQUEST);
      if !(storedRequest.Some? && storedRequest.value.StoredRequestOptions?) {
        return Failure(MissingStoredValue(LAST_REQUEST));
      }
      var webauthn := CreateWebauthnServer(request, pm);
      if webauthn.Failure? {
        return Failure(webauthn.error);
      }
      var verified := assertion.Some?;
      if !verified {
        var attempts := Attempts(pm.properties);
        var _ := pm.UpdateProperties(map[ATTEMPTS := Int(attempts + 1)]);
        return Success(false);
      }
      RecordUse(webauthn.value.repository, assertion.value, now);
      return Success(true);
    }

    /**
     * `prepareSetup`: creation options for the user, excluding the
     * credentials already registered for the user, stored as
     * `creationOptions` with the user entity. `random` is the challenge.
     */
    method PrepareSetup(request: Request, pm: PropertyManager, random: seq<byte>)
      returns (r: Result<CreationOptions, Error>)
      requires pm.Valid()
      requires |random| == DEFAULT_CHALLENGE_SIZE
      modifies pm
      ensures pm.Valid()
      ensures request.normalizedHost.None? ==> r == Failure(MissingNormalizedParams) && unchanged(pm)
      ensures request.normalizedHost.Some? && !AllHavePublicKey(StoredTable(old(pm.properties))) ==>
                r == Failure(StoredSourceMalformed) && unchanged(pm)
      ensures r.Success? <==> request.normalizedHost.Some? && AllHavePublicKey(StoredTable(old(pm.properties)))
      ensures r.Success? ==>
                var o, user := r.value, CreateUserEntity(pm.user);
                && o.rp == RpEntity(RP_NAME, request.normalizedHost.value)
                && o.user == user
                && o.challenge == random
                && o.pubKeyCredParams == DefaultParameters
                && o.excludeCredentials == Descriptors(UserSources(StoredTable(old(pm.properties)), user.id))
                && o.authenticatorSelection == SelectionCriteria(authenticatorAttachment, false, userVerification)
                && o.attestation == ATTESTATION_NONE
                && o.extensions == NoExtensions
                && o.timeout == DEFAULT_TIMEOUT
                && pm.hasEntry
                && pm.properties == old(pm.properties) + map[CREATION_OPTIONS := StoredCreationOptions(o), USER_ENTITY := StoredUserEntity(user)]
    {
      var webauthn := CreateWebauthnServer(request, pm);
      if webauthn.Failure? {
        return Failure(webauthn.error);
      }
      var server := webauthn.value;
      var criteria := SelectionCriteria(authenticatorAttachment, false, userVerification);
      var userEntity := CreateUserEntity(pm.user);
      var repository := new PublicKeyCredentialSourceRepository(pm);
      var sources := repository.FindAllForUserEntity(userEntity);
      if sources.Failure? {
        return Failure(sources.error);
      }
      var excludeCredentials := Descriptors(sources.value);
      DefaultIdentifiers();
      ghost var ids := GenerateManager(server.algorithms, server.selectedAlgorithms).value;
      assert ids == [-257, -259, -37, -39, -7, -36, -8];
      var creation := server.GeneratePublicKeyCredentialCreationOptions(
        userEntity, Some(ATTESTATION_NONE), excludeCredentials, Some(criteria), None, random);
      assert creation.Success?;
      var o := creation.value;
      DefaultParametersFrom(o.pubKeyCredParams, ids);
      var _ := UpdateOrCreate(pm, map[CREATION_OPTIONS := StoredCreationOptions(o), USER_ENTITY := StoredUserEntity(userEntity)]);
      return Success(o);
    }

    /**
     * `prepareAuth`: request options allowing the user's registered
     * credentials, stored as `lastRequest`. `random` is the challenge.
     */
    method PrepareAuth(request: Request, pm: PropertyManager, random: seq<byte>)
      returns (r: Result<RequestOptions, Error>)
      requires pm.Valid()
      requires |random| == DEFAULT_CHALLENGE_SIZE
      modifies pm
      ensures pm.Valid()
      ensures r.Failure? ==> unchanged(pm)
      ensures !StoresUserEntity(old(pm.properties)) ==> r == Failure(MissingStoredValue(USER_ENTITY))
      ensures StoresUserEntity(old(pm.properties)) && !AllHavePublicKey(StoredTable(old(pm.properties))) ==>
                r == Failure(StoredSourceMalformed)
      ensures StoresUserEntity(old(pm.properties)) && AllHavePublicKey(StoredTable(old(pm.properties)))
              && request.normalizedHost.None? ==>
                r == Failure(MissingNormalizedParams)
      ensures r.Success? <==>
                && StoresUserEntity(old(pm.properties))
                && AllHavePublicKey(StoredTable(old(pm.properties)))
                && request.normalizedHost.Some?
      ensures r.Success? ==>
                var o, user := r.value, Property(old(pm.properties), USER_ENTITY).value.user;
                && o.challenge == random
                && o.rpId == request.normalizedHost.value
                && o.userVerification == userVerification
                && o.allowCredentials == Descriptors(UserSources(StoredTable(old(pm.properties)), user.id))
                && o.timeout == DEFAULT_TIMEOUT
                && o.extensions == NoExtensions
                && pm.hasEntry
                && pm.properties == old(pm.properties)[LAST_REQUEST := StoredRequestOptions(o)]
    {
      var storedUser := pm.GetProperty(USER_ENTITY);
      if !(storedUser.Some? && storedUser.value.StoredUserEntity?) {
        return Failure(MissingStoredValue(USER_ENTITY));
      }
      var userEntity := storedUser.value.user;
      var repository := new PublicKeyCredentialSourceRepository(pm);
      var sources := repository.FindAllForUserEntity(userEntity);
      if sources.Failure? {
        return Failure(sources.error);
      }
      var allowedCredentials := Descriptors(sources.value);
      var webauthn := CreateWebauthnServer(request, pm);
      if webauthn.Failure? {
        return Failure(webauthn.error);
      }
      var server := webauthn.value;
      var requestOptions := server.GeneratePublicKeyCredentialRequestOptions(Some(userVerification), allowedCredentials, None, random);
      assert requestOptions.Success?;
      var o := requestOptions.value;
      var _ := pm.UpdateProperties(map[LAST_REQUEST := StoredRequestOptions(o)]);
      return Success(o);
    }
  }
}
