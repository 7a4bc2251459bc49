# mfa_webauthn in Dafny

A Dafny model of the core of the TYPO3 extension `bnf/mfa_webauthn`. The
extension adds WebAuthn (FIDO2 security keys and passkeys) as a multi-factor
authentication provider for the TYPO3 backend. The model has three parts:

- **The credential store** (`PublicKeyCredentialSourceRepository`).
  - A user's registered authenticators live in one provider property, `publicKeyCredentialSources`.
  - That property is a PHP array keyed by the Base64 encoding of the credential ID.
  - Each entry holds `{publickey, description, icon, created, updated}`.
  - Every mutator (save, add, remove) loads the whole array, edits it and writes it back through the host's property manager; the finders only load it.
- **The relying-party server** (`Server`).
  - It holds the COSE algorithm registry, the selected algorithm aliases, the secured relying-party IDs, the timeout and the challenge size.
  - It assembles creation and request options.
  - It rejects a loaded client response of the wrong ceremony kind before handing it to the validator.
- **The MFA provider** (`WebAuthnProvider`). It is a state machine over the user's provider properties:
  - `active`, the credential table, the pending `creationOptions` and `lastRequest`, `userEntity`, `attempts` and `lastUsed`;
  - activation, deactivation, update (add or remove a credential) and verification;
  - derivation of the WebAuthn user entity;
  - the rule that registers a `localhost` host as a secured relying-party ID.

Modules, in dependency order:

| file | module | contents |
|---|---|---|
| `wrappers.dfy` | `Wrappers` | `Option`, `Result`, `Outcome` |
| `php.dfy` | `Php` | PHP's `trim`, string truthiness and `array_unique` |
| `base64.dfy` | `Base64` | encoding per section 4 of RFC 4648, a decoder, and the round trip |
| `webauthn.dfy` | `WebAuthn` | the WebAuthn library's value types and the error cases |
| `credential_table.dfy` | `CredentialTable` | the stored array as an ordered table of slots |
| `host.dfy` | `Host` | request, user, property values, and the property manager class |
| `credential_repository.dfy` | `CredentialRepository` | the store class and the lemmas about it |
| `server.dfy` | `WebauthnServer` | the server class and COSE manager generation |
| `webauthn_provider.dfy` | `MfaProvider` | the provider class and the functions that specify it |

Conventions:

- A PHP array is ordered. The credential table is therefore a `seq<Slot>`:
  - assigning to a present key replaces that slot in place;
  - assigning to a new key appends a slot;
  - `unset` removes the slot.
- An exception that escapes an operation is a `Failure` or `Fail` value naming its cause.
- The provider catches every exception in three places, and each caught one becomes a `false` result:
  - in `addCredentials`: the library rejecting the attestation, and anything `addCredentialSource` throws;
  - in `removeCredentials`: `json_decode` or `createFromArray` failing on the posted credential, and the "does not exist" exception of `removeCredentialSource`;
  - in `verify`: the library rejecting the assertion, which also increments `attempts`.
- What the WebAuthn library decides about a client response is an input of the model:
  - the source it accepts, or none when it throws;
  - `Server` receives the library's loader and validator as function parameters;
  - the provider receives their verdict directly.

The provider uses the library's own server class, which takes the request where
`Classes/Server.php` takes a host name. Both classes configure and assemble options
in the same way, so the provider's construction of a server and its option
generation are modelled with `WebauthnServer.Server`.

`verify` does not clear `lastRequest`. A failed verification writes only
`attempts`. A successful one writes the accepted source back to the credential
table, as the library's assertion validator does through `saveCredentialSource`
on a store over the same property manager, and then sets `lastUsed`. The
`Verify` contract states the new properties in both cases, so `lastRequest` is
kept in both.

## Model

| member | source | states |
|---|---|---|
| Base64.Encode | Classes/Repository/PublicKeyCredentialSourceRepository.php:41 | The encoding of `n` bytes has `4 * ceil(n / 3)` characters. |
| Base64.DecodeEncode | Classes/Repository/PublicKeyCredentialSourceRepository.php:41 | Decoding the encoding of any byte string gives back that byte string. |
| Base64.EncodeInjective | Classes/Repository/PublicKeyCredentialSourceRepository.php:67 | Distinct byte strings have distinct encodings. |
| CredentialRepository.KeyOf | Classes/Repository/PublicKeyCredentialSourceRepository.php:41 | The storage key decodes back to the credential ID. |
| CredentialRepository.StoredTable | Classes/Repository/PublicKeyCredentialSourceRepository.php:103-106 | An unset credential property reads as the empty table; a stored table reads as itself. |
| CredentialRepository.PublicKeyCredentialSourceRepository.Load | Classes/Repository/PublicKeyCredentialSourceRepository.php:103-106 | Without a provider entry, the store is empty. |
| CredentialRepository.KeyOfInjective | Classes/Repository/PublicKeyCredentialSourceRepository.php:93 | Distinct credential IDs get distinct storage keys. |
| CredentialTable.Get | Classes/Repository/PublicKeyCredentialSourceRepository.php:42 | The lookup is absent exactly when no slot has the key; a found entry is stored under that key. |
| CredentialTable.GetPut | Classes/Repository/PublicKeyCredentialSourceRepository.php:87 | After assigning a key, it reads the new entry and every other key reads what it read before. |
| CredentialTable.PutKeys | Classes/Repository/PublicKeyCredentialSourceRepository.php:87 | Assigning a present key keeps the key order; a new key goes last. |
| CredentialTable.PutDistinct | Classes/Repository/PublicKeyCredentialSourceRepository.php:87 | Assignment keeps the keys distinct. |
| CredentialTable.GetRemove | Classes/Repository/PublicKeyCredentialSourceRepository.php:99 | After `unset`, the key reads nothing and every other key reads what it read before. |
| CredentialTable.RemoveDistinct | Classes/Repository/PublicKeyCredentialSourceRepository.php:99 | Removal keeps the keys distinct and only keeps slots that were there. |
| CredentialTable.RemoveLength | Classes/Repository/PublicKeyCredentialSourceRepository.php:99 | Removing a present key from a table with distinct keys drops exactly one slot. |
| CredentialTable.RemoveAbsent | Classes/Repository/PublicKeyCredentialSourceRepository.php:99 | Removing an absent key leaves the table as it was. |
| CredentialTable.UserSourcesExactly | Classes/Repository/PublicKeyCredentialSourceRepository.php:53-63 | A source is listed for a user handle exactly when a slot stores it and its handle is that handle. |
| CredentialRepository.LookupAfterAdd | Classes/Repository/PublicKeyCredentialSourceRepository.php:76-89 | After an add, the source is found under its own ID; every other ID finds what it found before. |
| CredentialRepository.LookupAfterSave | Classes/Repository/PublicKeyCredentialSourceRepository.php:65-74 | After a save, the source is found under its own ID; every other ID finds what it found before. |
| CredentialRepository.SaveKeepsMetadata | Classes/Repository/PublicKeyCredentialSourceRepository.php:70-73 | Saving over an existing entry keeps its description, icon and creation time, and sets `publickey` and `updated`. |
| CredentialRepository.LookupAfterRemove | Classes/Repository/PublicKeyCredentialSourceRepository.php:91-101 | After a removal, the ID finds nothing; every other ID finds what it found before. |
| CredentialRepository.PublicKeyCredentialSourceRepository.constructor | Classes/Repository/PublicKeyCredentialSourceRepository.php:33-36 | The store works on the given property manager. |
| CredentialRepository.PublicKeyCredentialSourceRepository.Save | Classes/Repository/PublicKeyCredentialSourceRepository.php:108-114 | Creates the provider entry when there is none. Sets exactly the credential property. Loading afterwards gives back the saved table. |
| CredentialRepository.PublicKeyCredentialSourceRepository.FindOneByCredentialId | Classes/Repository/PublicKeyCredentialSourceRepository.php:38-48 | Null when no entry is keyed by the encoded ID or the entry has no `publickey`; otherwise that entry's source. |
| CredentialRepository.PublicKeyCredentialSourceRepository.FindAllForUserEntity | Classes/Repository/PublicKeyCredentialSourceRepository.php:53-63 | The user's sources in table order. It fails when an entry has no `publickey`, which `createFromArray` rejects. |
| CredentialRepository.PublicKeyCredentialSourceRepository.SaveCredentialSource | Classes/Repository/PublicKeyCredentialSourceRepository.php:65-74 | The entry at the encoded ID gets the new source and `updated`, and keeps its other fields. It is created if absent. Nothing else changes, and distinct keys stay distinct. |
| CredentialRepository.PublicKeyCredentialSourceRepository.AddCredentialSource | Classes/Repository/PublicKeyCredentialSourceRepository.php:76-89 | The entry at the encoded ID is replaced by a new one without `updated`. Nothing else changes, and distinct keys stay distinct. |
| CredentialRepository.PublicKeyCredentialSourceRepository.RemoveCredentialSource | Classes/Repository/PublicKeyCredentialSourceRepository.php:91-101 | An absent key fails with "does not exist" and writes nothing. A present key is removed, nothing else changes, and distinct keys stay distinct. |
| Host.Property | Classes/Repository/PublicKeyCredentialSourceRepository.php:105 | A property reads as present exactly when it is set and not null, and then it reads the stored value. |
| Host.UpdateOrCreate | Classes/Repository/PublicKeyCredentialSourceRepository.php:110-113 | Updates the entry, or creates it when there is none. The patch is merged over the old properties. |
| Php.Trim | Classes/Provider/WebAuthnProvider.php:375-378 | The result has no surrounding white space and is no longer than the input. |
| Php.TrimRemovesExactlyPadding | Classes/Provider/WebAuthnProvider.php:380-383 | Trimming blank padding around a trimmed core gives back exactly the core. |
| Php.TrimIdempotent | Classes/Provider/WebAuthnProvider.php:385-388 | Trimming twice is trimming once. |
| Php.TrimEmptyIffBlank | Classes/Provider/WebAuthnProvider.php:83-86 | Trimming gives the empty string exactly when the input is all white space. |
| Php.ArrayUnique | Classes/Server.php:205 | The result has no repetitions and holds exactly the input's elements. |
| Php.ArrayUniqueIsFirstOccurrences | Classes/Server.php:205 | `array_unique` keeps each element at its first occurrence, in order. |
| Php.ArrayUniqueOfDistinct | Classes/Server.php:205 | A list without repetitions is left unchanged. |
| Php.ArrayUniqueAppend | Classes/Server.php:203-205 | Appending to a distinct list and de-duplicating either appends a new element or leaves the list unchanged. |
| WebauthnServer.GenerateManager | Classes/Server.php:375 | Succeeds exactly when every alias is registered; otherwise fails naming the first unregistered alias. |
| WebauthnServer.GenerateIsArrayUnique | Classes/Server.php:236-243 | The manager lists the aliases' identifiers with repetitions dropped at their later positions, so each appears once, in order of first use. |
| WebauthnServer.DefaultIdentifiers | Classes/Server.php:168 | The default selection yields RS256, RS512, PS256, PS512, ES256, ES512 and Ed25519, in that order, as COSE identifiers. |
| WebauthnServer.Server.constructor | Classes/Server.php:150-173 | The relying party and store are given. Timeout is 60000, challenge size is 32. The twelve algorithms are registered, the seven defaults are selected, and no secured IDs are set. |
| WebauthnServer.Server.SetSelectedAlgorithms | Classes/Server.php:187-192 | The selection becomes the given list; nothing else changes. |
| WebauthnServer.Server.AddAlgorithm | Classes/Server.php:201-208 | Registers the alias. The selection becomes `array_unique` of the old one plus the alias: distinct, containing the alias and every old alias. A distinct list gets the alias appended, or is unchanged when it already holds it. |
| WebauthnServer.Server.SetSecuredRelyingPartyId | Classes/Server.php:220-229 | Fails exactly on an empty list, and then changes nothing. Otherwise it stores the list as given. |
| WebauthnServer.Server.GeneratePublicKeyCredentialCreationOptions | Classes/Server.php:234-261 | Fails on an unregistered alias or a challenge size below 1. Otherwise: rp, user, a `challengeSize`-byte challenge, one `public-key` parameter per generated identifier in order, the given exclusions, and criteria, attestation and extensions defaulting to the standard ones. |
| WebauthnServer.Server.GeneratePublicKeyCredentialRequestOptions | Classes/Server.php:266-276 | Fails exactly on a challenge size below 1. Otherwise: a `challengeSize`-byte challenge, the RP's id, user verification defaulting to "preferred", the given allowed descriptors, the timeout, and extensions defaulting to empty. |
| WebauthnServer.Server.LoadAndCheckAttestationResponse | Classes/Server.php:278-307 | Fails in order on algorithm generation, then on loading, then on a response that is not an attestation. Otherwise the result is the validator's verdict, success or failure, on the response, options, host, secured IDs and store. |
| WebauthnServer.Server.LoadAndCheckAssertionResponse | Classes/Server.php:309-343 | Fails in order on algorithm generation, then on loading, then on a response that is not an assertion. Otherwise the result is the validator's verdict, on the raw ID, the user's ID as the expected handle (none without a user), the secured IDs and the store as it was. Failures write nothing; an accepted source is saved over its entry in the store, which keeps its other fields and every other entry. |
| MfaProvider.RequestParameter | Classes/Provider/WebAuthnProvider.php:375-393 | The value is trimmed, and is empty when neither the query nor the body has the parameter. |
| MfaProvider.RequestParameterTrimsRaw | Classes/Provider/WebAuthnProvider.php:375-393 | Every getter's value is the trimmed raw parameter, the query taking precedence over the parsed body. |
| MfaProvider.RequestParameterStripsPadding | Classes/Provider/WebAuthnProvider.php:380-383 | A posted value that is a trimmed core inside blank padding reads as exactly that core. |
| MfaProvider.CanProcess | Classes/Provider/WebAuthnProvider.php:83-86 | A request can be processed exactly when the posted credential is not all white space. |
| MfaProvider.LoginTypeOf | Classes/Provider/WebAuthnProvider.php:402 | A truthy login type is kept; a falsy one is replaced by "BE", so the result is never falsy. |
| MfaProvider.CreateUserEntity | Classes/Provider/WebAuthnProvider.php:395-406 | The id is login type, ":", uid. The name is the username, else the email. The name is empty when the user has neither. The display name is the real name when truthy, else the name, and it is empty exactly when both are. |
| MfaProvider.UserHandleIdentifiesUser | Classes/Provider/WebAuthnProvider.php:403 | With colon-free login types, two users share a handle exactly when they share login type and uid. |
| MfaProvider.MatchesLocalhostIffPattern | Classes/Provider/WebAuthnProvider.php:421 | The computed check accepts a host exactly when `^(.+\.)?localhost$` matches it, including `$` before a final newline. |
| MfaProvider.AddActivates | Classes/Provider/WebAuthnProvider.php:185-212 | After a successful add, the provider is active, the source is found under its ID, and `creationOptions` is cleared. |
| MfaProvider.ActiveMeansStoredCredentials | Classes/Provider/WebAuthnProvider.php:88-92 | The provider is active exactly when `active` is set and truthy and a non-empty credential table is stored. |
| MfaProvider.VerifyRecordsUse | Classes/Repository/PublicKeyCredentialSourceRepository.php:65-74 | After a successful verification, the accepted source is what its ID finds, every other ID finds what it found before, `lastUsed` is the time, and an active provider stays active. |
| MfaProvider.RecordUse | Classes/Provider/WebAuthnProvider.php:242-262 | The accepted source is saved over its entry through the store, then `lastUsed` is set; the entry exists afterwards. |
| MfaProvider.RemovingLastDeactivates | Classes/Provider/WebAuthnProvider.php:88-92 | Removing the only stored credential leaves the provider inactive with the credential gone. |
| MfaProvider.WebAuthnProvider.constructor | Classes/Provider/WebAuthnProvider.php:53-63 | Keeps the configured user-verification requirement and authenticator attachment; they default to "discouraged" and no attachment preference. |
| MfaProvider.WebAuthnProvider.IsActive | Classes/Provider/WebAuthnProvider.php:88-92 | A user without a provider entry is never active. |
| MfaProvider.WebAuthnProvider.IsLocked | Classes/Provider/WebAuthnProvider.php:94-97 | The provider is never locked. |
| MfaProvider.WebAuthnProvider.Unlock | Classes/Provider/WebAuthnProvider.php:119-130 | Always returns false, and has no write to make. |
| MfaProvider.WebAuthnProvider.Deactivate | Classes/Provider/WebAuthnProvider.php:132-141 | Inactive: false and no change. Active: the entry is deleted and the delete's result is returned. |
| MfaProvider.WebAuthnProvider.CreateWebauthnServer | Classes/Provider/WebAuthnProvider.php:408-428 | Fails without the normalized host. Otherwise it gives a fresh default server for "TYPO3 Backend" at the host, over the user's store. The host is the only secured ID exactly when it is a localhost name. |
| MfaProvider.WebAuthnProvider.AddCredentials | Classes/Provider/WebAuthnProvider.php:178-213 | Missing stored options or host throw before anything is written. A rejected response gives false and no change. An accepted one is stored, with `active` set and `creationOptions` cleared. |
| MfaProvider.WebAuthnProvider.RemoveCredentials | Classes/Provider/WebAuthnProvider.php:215-226 | True exactly when the posted source decodes and is stored. It is then removed; otherwise nothing changes. |
| MfaProvider.WebAuthnProvider.Update | Classes/Provider/WebAuthnProvider.php:152-176 | An unprocessable request gives false and no change. "add" and "remove" dispatch, and any other action keeps true. A provider left inactive has its entry deleted, and a failed delete gives false. |
| MfaProvider.WebAuthnProvider.DeleteIfInactive | Classes/Provider/WebAuthnProvider.php:168-173 | An active provider is left as it is with its status. An inactive one loses its entry, and the status becomes false if the delete fails. |
| MfaProvider.WebAuthnProvider.Activate | Classes/Provider/WebAuthnProvider.php:143-150 | Active: true and no change. Otherwise it behaves as `update`. |
| MfaProvider.WebAuthnProvider.Verify | Classes/Provider/WebAuthnProvider.php:228-263 | Missing user entity, request options or host throw in that order, writing nothing. A rejected assertion increments `attempts` (from 0 when unset) and gives false. An accepted one is saved over its entry (new source, `updated`; a new slot if absent), `lastUsed` is set to now, and it gives true. In both outcomes the rest of the properties, `lastRequest` included, are kept. |
| MfaProvider.WebAuthnProvider.PrepareSetup | Classes/Provider/WebAuthnProvider.php:265-334 | Creation options for the derived user: the default algorithms, "none" attestation, the configured criteria, and the user's stored credentials excluded. They are stored as `creationOptions` with the user entity. |
| MfaProvider.WebAuthnProvider.PrepareAuth | Classes/Provider/WebAuthnProvider.php:336-373 | Request options for the stored user entity, allowing the user's stored credentials, with the configured user verification. They are stored as `lastRequest`. Missing entity, malformed store and missing host fail in that order. |

## Left out

- The internals of the WebAuthn library are not part of this model. That covers:
  - loading and parsing client responses (JSON, CBOR);
  - the attestation-statement formats and COSE signature checks;
  - origin and relying-party-ID hashing;
  - the signature-counter check. The validator's write-back of the accepted source through `saveCredentialSource` is modelled, in `WebauthnServer.Server.LoadAndCheckAssertionResponse` and, through `MfaProvider.RecordUse`, in `MfaProvider.WebAuthnProvider.Verify`; the new counter value itself is part of the validator's verdict.

  They enter the model as the `loader`/`validator` parameters of `Server`, and as the `attestation`, `assertion` and `removal` verdicts the provider receives.
- The provider calls the library's own server with the request object as its third argument. That class is not part of this model; `WebauthnServer.Server` stands in for it for construction and option generation.
- `random_bytes` is the `random` parameter, of length `challengeSize`. The current time from the TYPO3 context is the `now` parameter.
- `handleRequest` and all rendering (`renderHtmlTag`, the page renderer, labels, JavaScript modules, the TYPO3 version branch) are left out. `prepareSetup` and `prepareAuth` return the options they store instead of the HTML they render.
- Loading the library in classic mode (`glob` and `require_once` in the constructor) is left out.
- The Android SafetyNet wiring, the logger, and the metadata, token-binding and extension-checker setters of `Server` are left out. Of `getAttestationStatementSupportManager`, only the algorithm manager generation is modelled.
- `jsonSerialize` and `createFromArray` of options, entities and sources are identity: stored values keep their WebAuthn type. A stored value of the wrong kind makes `createFromArray` fail.
- TYPO3's `MfaProviderPropertyManager` is not part of this model. `Host.PropertyManager` keeps only the provider entry's existence, its properties and the write result; the record's timestamps are not modelled.
- `MfaProvider.Attempts`: a stored non-integer `attempts` reads as 0, where PHP's `++` would act on the stored value.
- `CredentialRepository.StoredTable`: a credential property holding something other than a table reads as empty, where `count()` or a `foreach` would act on it or throw.
- `MfaProvider.WebAuthnProvider.Unlock` does not model the attempts reset after the lock check, because `isLocked` is always false and that branch cannot run.
- `WebauthnServer.Server.SetSecuredRelyingPartyId` does not model the check that every element is a string, because the list is typed as strings in the model.
- `Base64.Decode` accepts padded input only. It exists to prove the encoding injective and is not used by the extension.
- The library's verdicts (the `attestation`, `assertion` and `removal` inputs and the results of `Server`'s `validator`) are unconstrained. They may name a credential that the library would reject, for example an assertion for a credential ID that is not stored, which the library looks up and refuses. Saving such a source adds a slot with only `publickey` and `updated`; in the extension this state cannot arise.
- `Host.Request` maps parameter names to strings. An array-valued query or body parameter, which PHP's `(string)` cast turns into "Array", is not modelled.
- Concurrent requests that overwrite the whole credential array are left out; the model is sequential.
