/**
 * What the TYPO3 core hands to the extension: the HTTP request, the logged-in
 * user, and the MFA provider property manager, a per-user, per-provider
 * key/value record persisted as one database column. Only the behaviour the
 * extension relies on is modelled.
 */
module Host {
  import opened Wrappers
  import opened Php
  import opened WebAuthn
  import opened CredentialTable

  /** A property value as the extension stores it. */
  datatype Value =
    | Null
    | Bool(b: bool)
    | Int(i: int)
    | Str(s: string)
    | Sources(table: Table)
    | StoredCreationOptions(creation: CreationOptions)
    | StoredRequestOptions(request: RequestOptions)
    | StoredUserEntity(user: UserEntity)

  /** PHP's `(bool)` cast. Option records and entities are non-empty arrays once stored. */
  predicate Truthy(v: Value) {
    match v
    case Null => false
    case Bool(b) => b
    case Int(i) => i != 0
    case Str(s) => IsTruthyString(s)
    case Sources(t) => |t| > 0
    case _ => true
  }

  /** `$properties[$key] ?? null`: a key set to null reads as absent. */
  function Property(properties: map<string, Value>, key: string): (r: Option<Value>)
    ensures r.Some? <==> key in properties && properties[key] != Null
    ensures r.Some? ==> r.value == properties[key]
  {
    if key in properties && properties[key] != Null then Some(properties[key]) else None
  }

  /** The logged-in user: `$user->loginType` and the database row `$user->user` (null columns absent). */
  datatype HostUser = HostUser(loginType: string, row: Option<map<string, string>>)

  /**
   * The request: query parameters, the parsed body, and the host of the
   * `normalizedParams` attribute (None when the attribute is missing).
   */
  datatype Request = Request(query: map<string, string>, parsedBody: map<string, string>, normalizedHost: Option<string>)

  /**
   * `MfaProviderPropertyManager` for one user and one provider. `writesSucceed`
   * is what the database reports for a write; the in-memory properties change
   * whatever it reports.
   */
  class PropertyManager {
    var hasEntry: bool
    var properties: map<string, Value>
    const user: HostUser
    const writesSucceed: bool

    /** Without a provider entry there are no properties. */
    ghost predicate Valid()
      reads this
    {
      !hasEntry ==> properties == map[]
    }

    constructor (hasEntry: bool, properties: map<string, Value>, user: HostUser, writesSucceed: bool)
      requires !hasEntry ==> properties == map[]
      ensures Valid()
      ensures this.hasEntry == hasEntry && this.properties == properties
      ensures this.user == user && this.writesSucceed == writesSucceed
    {
      this.hasEntry := hasEntry;
      this.properties := properties;
      this.user := user;
      this.writesSucceed := writesSucceed;
    }

    /** `getProperty($key)`. */
    function GetProperty(key: string): Option<Value>
      reads this
    {
      Property(properties, key)
    }

    /** `updateProperties($patch)`: `array_replace` of the properties; there must be an entry to update. */
    method UpdateProperties(patch: map<string, Value>) returns (ok: bool)
      requires Valid() && hasEntry
      modifies this
      ensures Valid() && hasEntry
      ensures properties == old(properties) + patch
      ensures ok == writesSucceed
    {
      properties := properties + patch;
      hasEntry := true;
      ok := writesSucceed;
    }

    /** `createProviderEntry($initial)`; the extension only calls it when there is no entry. */
    method CreateProviderEntry(initial: map<string, Value>) returns (ok: bool)
      requires Valid() && !hasEntry
      modifies this
      ensures Valid() && hasEntry
      ensures properties == initial
      ensures ok == writesSucceed
    {
      properties := initial;
      hasEntry := true;
      ok := writesSucceed;
    }

    /** `deleteProviderEntry()`. */
    method DeleteProviderEntry() returns (ok: bool)
      modifies this
      ensures Valid() && !hasEntry && properties == map[]
      ensures ok == writesSucceed
    {
      properties := map[];
      hasEntry := false;
      ok := writesSucceed;
    }
  }

  /**
   * `hasProviderEntry() ? updateProperties($patch) : createProviderEntry($patch)`:
   * the idiom both the store and the provider use to write properties.
   */
  method UpdateOrCreate(pm: PropertyManager, patch: map<string, Value>) returns (ok: bool)
    requires pm.Valid()
    modifies pm
    ensures pm.Valid() && pm.hasEntry
    ensures pm.properties == old(pm.properties) + patch
    ensures ok == pm.writesSucceed
  {
    if pm.hasEntry {
      ok := pm.UpdateProperties(patch);
    } else {
      ok := pm.CreateProviderEntry(patch);
    }
  }
}
