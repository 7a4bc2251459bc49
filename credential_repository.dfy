/**
 * `PublicKeyCredentialSourceRepository`: the credential store. All entries of
 * one user live in the single `publicKeyCredentialSources` property, keyed by
 * the Base64 encoding of the credential ID. Every mutator (save, add,
 * remove) loads the whole table, edits it and writes it back through the
 * property manager; the finders only load it.
 */
module CredentialRepository {
  import opened Wrappers
  import opened Php
  import opened WebAuthn
  import opened CredentialTable
  import opened Host
  import Base64

  /** `PublicKeyCredentialSourceRepository::PROPERTY`. */
  const PROPERTY: string := "publicKeyCredentialSources"

  /** The storage key of a credential: `base64_encode($credentialId)`. */
  function KeyOf(credentialId: seq<byte>): (k: string)
    ensures Base64.Decode(k) == Some(credentialId)
  {
    Base64.DecodeEncode(credentialId);
    Base64.Encode(credentialId)
  }

  /** Distinct credential IDs never share a storage key. */
  lemma KeyOfInjective(a: seq<byte>, b: seq<byte>)
    ensures a != b ==> KeyOf(a) != KeyOf(b)
  {
    if KeyOf(a) == KeyOf(b) {
      assert Some(a) == Base64.Decode(KeyOf(a)) == Some(b);
    }
  }

  /** `getProperty(PROPERTY) ?? []`; a value that is not a table reads as empty. */
  function StoredTable(properties: map<string, Value>): (t: Table)
    ensures PROPERTY !in properties ==> t == []
    ensures PROPERTY in properties && properties[PROPERTY].Sources? ==> t == properties[PROPERTY].table
  {
    match Property(properties, PROPERTY)
    case Some(Sources(t)) => t
    case _ => []
  }

  /** What `findOneByCredentialId` returns for a table. */
  function LookupSource(t: Table, credentialId: seq<byte>): Option<Source> {
    match Get(t, KeyOf(credentialId))
    case None => None
    case Some(e) => e.publickey
  }

  /** The entry `addCredentialSource` writes: a fresh record without `updated`. */
  function AddedEntry(s: Source, description: string, icon: string, now: int): Entry {
    Entry(Some(s), Some(description), Some(icon), Some(now), None)
  }

  /** The entry `saveCredentialSource` writes: only `publickey` and `updated` change. */
  function SavedEntry(previous: Option<Entry>, s: Source, now: int): Entry {
    match previous
    case Some(e) => e.(publickey := Some(s), updated := Some(now))
    case None => Entry(Some(s), None, None, None, Some(now))
  }

  /** After adding, the source is found under its ID and every other ID finds what it found before. */
  lemma LookupAfterAdd(t: Table, s: Source, description: string, icon: string, now: int, id: seq<byte>)
    ensures LookupSource(Put(t, KeyOf(s.publicKeyCredentialId), AddedEntry(s, description, icon, now)), id)
         == if id == s.publicKeyCredentialId then Some(s) else LookupSource(t, id)
  {
    KeyOfInjective(id, s.publicKeyCredentialId);
    GetPut(t, KeyOf(s.publicKeyCredentialId), AddedEntry(s, description, icon, now), KeyOf(id));
  }

  /** After saving, the source is found under its ID and every other ID finds what it found before. */
  lemma LookupAfterSave(t: Table, s: Source, now: int, id: seq<byte>)
    ensures LookupSource(Put(t, KeyOf(s.publicKeyCredentialId), SavedEntry(Get(t, KeyOf(s.publicKeyCredentialId)), s, now)), id)
         == if id == s.publicKeyCredentialId then Some(s) else LookupSource(t, id)
  {
    var k := KeyOf(s.publicKeyCredentialId);
    KeyOfInjective(id, s.publicKeyCredentialId);
    GetPut(t, k, SavedEntry(Get(t, k), s, now), KeyOf(id));
  }

  /** Saving keeps the description, icon and creation time of an existing entry. */
  lemma SaveKeepsMetadata(t: Table, s: Source, now: int)
    requires HasKey(t, KeyOf(s.publicKeyCredentialId))
    ensures var k := KeyOf(s.publicKeyCredentialId);
            var before := Get(t, k).value;
            var after := Get(Put(t, k, SavedEntry(Get(t, k), s, now)), k);
            && after.Some?
            && after.value.description == before.description && after.value.icon == before.icon
            && after.value.created == before.created
            && after.value.publickey == Some(s) && after.value.updated == Some(now)
  {
    var k := KeyOf(s.publicKeyCredentialId);
    GetPut(t, k, SavedEntry(Get(t, k), s, now), k);
  }

  /** After removing, the ID finds nothing and every other ID finds what it found before. */
  lemma LookupAfterRemove(t: Table, removed: seq<byte>, id: seq<byte>)
    ensures LookupSource(Remove(t, KeyOf(removed)), id) == if id == removed then None else LookupSource(t, id)
  {
    KeyOfInjective(id, removed);
    GetRemove(t, KeyOf(removed), KeyOf(id));
  }

  class PublicKeyCredentialSourceRepository {
    const propertyManager: PropertyManager

    constructor (propertyManager: PropertyManager)
      ensures this.propertyManager == propertyManager
    {
      this.propertyManager := propertyManager;
    }

    /** `load()`. */
    function Load(): (t: Table)
      reads propertyManager
      ensures propertyManager.Valid() && !propertyManager.hasEntry ==> t == []
    {
      StoredTable(propertyManager.properties)
    }

    /** `save($data)`: update the provider entry, or create it when there is none. */
    method Save(data: Table)
      requires propertyManager.Valid()
      modifies propertyManager
      ensures propertyManager.Valid() && propertyManager.hasEntry
      ensures propertyManager.properties == old(propertyManager.properties)[PROPERTY := Sources(data)]
      ensures Load() == data
    {
      var _ := UpdateOrCreate(propertyManager, map[PROPERTY := Sources(data)]);
    }

    /** `findOneByCredentialId($id)`: the source stored under base64($id), or null. */
    method FindOneByCredentialId(credentialId: seq<byte>) returns (r: Option<Source>)
      ensures Get(Load(), KeyOf(credentialId)).None? ==> r.None?
      ensures Get(Load(), KeyOf(credentialId)).Some? ==> r == Get(Load(), KeyOf(credentialId)).value.publickey
      ensures r == LookupSource(Load(), credentialId)
    {
      var data := Load();
      var identifier := KeyOf(credentialId);
      var entry := Get(data, identifier);
      if entry.None? || entry.value.publickey.None? {
        return None;
      }
      return entry.value.publickey;
    }

    /**
     * `findAllForUserEntity($user)`: the stored sources of the user, in table
     * order. An entry without `publickey` makes `createFromArray` throw.
     */
    method FindAllForUserEntity(user: UserEntity) returns (r: Result<seq<Source>, Error>)
      ensures AllHavePublicKey(Load()) ==> r == Success(UserSources(Load(), user.id))
      ensures !AllHavePublicKey(Load()) ==> r == Failure(StoredSourceMalformed)
    {
      var data := Load();
      var sources: seq<Source> := [];
      var i := 0;
      while i < |data|
        invariant 0 <= i <= |data|
        invariant AllHavePublicKey(data[..i])
        invariant sources == UserSources(data[..i], user.id)
      {
        var source := data[i].entry.publickey;
        if source.None? {
          return Failure(StoredSourceMalformed);
        }
        if source.value.userHandle == user.id {
          sources := sources + [source.value];
        }
        assert data[..i + 1][..i] == data[..i];
        i := i + 1;
      }
      assert data[..|data|] == data;
      return Success(sources);
    }

    /** `saveCredentialSource($s)`: overwrite `publickey` and `updated` of the entry, creating it if absent. */
    method SaveCredentialSource(s: Source, now: int)
      requires propertyManager.Valid()
      modifies propertyManager
      ensures propertyManager.Valid() && propertyManager.hasEntry
      ensures var k := KeyOf(s.publicKeyCredentialId);
              Load() == Put(old(Load()), k, SavedEntry(Get(old(Load()), k), s, now))
      ensures propertyManager.properties == old(propertyManager.properties)[PROPERTY := Sources(Load())]
      ensures old(DistinctKeys(Load())) ==> DistinctKeys(Load())
    {
      var identifier := KeyOf(s.publicKeyCredentialId);
      var data := Load();
      if DistinctKeys(data) {
        PutDistinct(data, identifier, SavedEntry(Get(data, identifier), s, now));
      }
      data := Put(data, identifier, SavedEntry(Get(data, identifier), s, now));
      Save(data);
    }

    /** `addCredentialSource($s, $description, $icon)`: replace the whole entry of the credential. */
    method AddCredentialSource(s: Source, description: string, icon: string, now: int)
      requires propertyManager.Valid()
      modifies propertyManager
      ensures propertyManager.Valid() && propertyManager.hasEntry
      ensures Load() == Put(old(Load()), KeyOf(s.publicKeyCredentialId), AddedEntry(s, description, icon, now))
      ensures propertyManager.properties == old(propertyManager.properties)[PROPERTY := Sources(Load())]
      ensures old(DistinctKeys(Load())) ==> DistinctKeys(Load())
    {
      var identifier := KeyOf(s.publicKeyCredentialId);
      var source := AddedEntry(s, description, icon, now);
      var data := Load();
      if DistinctKeys(data) {
        PutDistinct(data, identifier, source);
      }
      data := Put(data, identifier, source);
      Save(data);
    }

    /** `removeCredentialSource($s)`: delete the entry, or throw when there is none. */
    method RemoveCredentialSource(s: Source) returns (r: Outcome<Error>)
      requires propertyManager.Valid()
      modifies propertyManager
      ensures propertyManager.Valid()
      ensures !HasKey(old(Load()), KeyOf(s.publicKeyCredentialId)) ==>
                r == Fail(CredentialSourceDoesNotExist) && unchanged(propertyManager)
      ensures HasKey(old(Load()), KeyOf(s.publicKeyCredentialId)) ==>
                && r == Pass
                && propertyManager.hasEntry
                && Load() == Remove(old(Load()), KeyOf(s.publicKeyCredentialId))
                && propertyManager.properties == old(propertyManager.properties)[PROPERTY := Sources(Load())]
      ensures old(DistinctKeys(Load())) ==> DistinctKeys(Load())
    {
      var identifier := KeyOf(s.publicKeyCredentialId);
      var data := Load();
      if Get(data, identifier).None? {
        return Fail(CredentialSourceDoesNotExist);
      }
      if DistinctKeys(data) {
        RemoveDistinct(data, identifier);
      }
      data := Remove(data, identifier);
      Save(data);
      return Pass;
    }
  }
}
