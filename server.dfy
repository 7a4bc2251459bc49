/**
 * `Bnf\MfaWebauthn\Server`: the relying-party facade over the WebAuthn
 * library. It keeps a registry of COSE signature algorithms (alias to
 * identifier), the aliases offered to authenticators, the secured relying
 * party IDs, a timeout and a challenge size, and produces creation and
 * request options. Parsing a client response and validating it are done by
 * the library; they enter the model as the functions `loader` and `validator`.
 */
module WebauthnServer {
  import opened Wrappers
  import opened Php
  import opened WebAuthn
  import opened CredentialTable
  import opened Host
  import opened CredentialRepository

  /** Milliseconds a ceremony may take, unless changed. */
  const DEFAULT_TIMEOUT: int := 60000
  /** Bytes of random challenge, unless changed. */
  const DEFAULT_CHALLENGE_SIZE: int := 32

  /**
   * The algorithms the constructor registers with the COSE manager factory:
   * alias to COSE algorithm identifier (IANA "COSE Algorithms" registry).
   */
  const DefaultRegistry: map<string, int> := map[
    "RS1" := -65535, "RS256" := -257, "RS384" := -258, "RS512" := -259,
    "PS256" := -37, "PS384" := -38, "PS512" := -39,
    "ES256" := -7, "ES256K" := -47, "ES384" := -35, "ES512" := -36,
    "Ed25519" := -8]

  /** The aliases offered by default. */
  const DefaultSelection: seq<string> := ["RS256", "RS512", "PS256", "PS512", "ES256", "ES512", "Ed25519"]

  /** The identifiers of a list of registered aliases, one per alias. */
  function Identifiers(registry: map<string, int>, aliases: seq<string>): (ids: seq<int>)
    requires forall i :: 0 <= i < |aliases| ==> aliases[i] in registry
    ensures |ids| == |aliases| && forall i :: 0 <= i < |aliases| ==> ids[i] == registry[aliases[i]]
  {
    seq(|aliases|, i requires 0 <= i < |aliases| => registry[aliases[i]])
  }

  /**
   * `generate(...$aliases)` of the COSE manager factory, as `all()` of the
   * resulting manager lists it: the aliases are taken left to right, an
   * unregistered one throws, and the manager keys algorithms by identifier,
   * so an identifier already present keeps its first position.
   */
  function GenerateManager(registry: map<string, int>, aliases: seq<string>): (r: Result<seq<int>, Error>)
    ensures r.Success? <==> forall i :: 0 <= i < |aliases| ==> aliases[i] in registry
    ensures r.Failure? ==>
              exists i :: 0 <= i < |aliases| && aliases[i] !in registry && r.error == UnsupportedAlgorithm(aliases[i])
                          && forall j :: 0 <= j < i ==> aliases[j] in registry
  {
    if |aliases| == 0 then Success([])
    else
      var prefix, alias := aliases[..|aliases| - 1], aliases[|aliases| - 1];
      assert forall i :: 0 <= i < |prefix| ==> prefix[i] == aliases[i];
      match GenerateManager(registry, prefix)
      case Failure(e) => Failure(e)
      case Success(ids) =>
        if alias !in registry then
          Failure(UnsupportedAlgorithm(alias))
        else
          Success(if registry[alias] in ids then ids else ids + [registry[alias]])
  }

  /** The manager's identifiers are `array_unique` of the aliases' identifiers. */
  lemma {:induction false} GenerateIsArrayUnique(registry: map<string, int>, aliases: seq<string>)
    requires forall i :: 0 <= i < |aliases| ==> aliases[i] in registry
    ensures GenerateManager(registry, aliases) == Success(ArrayUnique(Identifiers(registry, aliases)))
  {
    if |aliases| > 0 {
      var prefix := aliases[..|aliases| - 1];
      GenerateIsArrayUnique(registry, prefix);
      var ids := Identifiers(registry, aliases);
      assert ids[..|ids| - 1] == Identifiers(registry, prefix);
    }
  }

  /** Each default alias is registered, and their identifiers are these, all distinct. */
  lemma DefaultSelectionIdentifiers()
    ensures forall i :: 0 <= i < |DefaultSelection| ==> DefaultSelection[i] in DefaultRegistry
    ensures Identifiers(DefaultRegistry, DefaultSelection) == [-257, -259, -37, -39, -7, -36, -8]
    ensures NoDuplicates(Identifiers(DefaultRegistry, DefaultSelection))
  {
    var reg, sel := DefaultRegistry, DefaultSelection;
    assert sel[0] == "RS256" && sel[1] == "RS512" && sel[2] == "PS256" && sel[3] == "PS512";
    assert sel[4] == "ES256" && sel[5] == "ES512" && sel[6] == "Ed25519";
    assert reg["RS256"] == -257 && reg["RS512"] == -259 && reg["PS256"] == -37 && reg["PS512"] == -39;
    assert reg["ES256"] == -7 && reg["ES512"] == -36 && reg["Ed25519"] == -8;
  }

  /** The default selection offers RS256, RS512, PS256, PS512, ES256, ES512 and Ed25519, in that order. */
  lemma DefaultIdentifiers()
    ensures GenerateManager(DefaultRegistry, DefaultSelection) == Success([-257, -259, -37, -39, -7, -36, -8])
  {
    DefaultSelectionIdentifiers();
    GenerateIsArrayUnique(DefaultRegistry, DefaultSelection);
    ArrayUniqueOfDistinct(Identifiers(DefaultRegistry, DefaultSelection));
  }

  class Server {
    var timeout: int
    var challengeSize: int
    const rpEntity: RpEntity
    const repository: PublicKeyCredentialSourceRepository
    /** The COSE manager factory: alias to algorithm identifier. */
    var algorithms: map<string, int>
    var selectedAlgorithms: seq<string>
    var securedRelyingPartyId: seq<string>

    constructor (relyingParty: RpEntity, repository: PublicKeyCredentialSourceRepository)
      ensures rpEntity == relyingParty && this.repository == repository
      ensures timeout == DEFAULT_TIMEOUT && challengeSize == DEFAULT_CHALLENGE_SIZE
      ensures algorithms == DefaultRegistry && selectedAlgorithms == DefaultSelection
      ensures securedRelyingPartyId == []
    {
      rpEntity := relyingParty;
      algorithms := DefaultRegistry;
      selectedAlgorithms := DefaultSelection;
      this.repository := repository;
      timeout := DEFAULT_TIMEOUT;
      challengeSize := DEFAULT_CHALLENGE_SIZE;
      securedRelyingPartyId := [];
    }

    /** `setSelectedAlgorithms($aliases)`: taken as given, repetitions included. */
    method SetSelectedAlgorithms(aliases: seq<string>)
      modifies this
      ensures selectedAlgorithms == aliases
      ensures timeout == old(timeout) && challengeSize == old(challengeSize)
      ensures algorithms == old(algorithms) && securedRelyingPartyId == old(securedRelyingPartyId)
    {
      selectedAlgorithms := aliases;
    }

    /** `addAlgorithm($alias, $algorithm)`: register the algorithm and offer its alias once. */
    method AddAlgorithm(alias: string, identifier: int)
      modifies this
      ensures algorithms == old(algorithms)[alias := identifier]
      ensures selectedAlgorithms == ArrayUnique(old(selectedAlgorithms) + [alias])
      ensures NoDuplicates(selectedAlgorithms) && alias in selectedAlgorithms
      ensures forall i :: 0 <= i < |old(selectedAlgorithms)| ==> old(selectedAlgorithms)[i] in selectedAlgorithms
      ensures NoDuplicates(old(selectedAlgorithms)) ==>
                selectedAlgorithms == if alias in old(selectedAlgorithms) then old(selectedAlgorithms)
                                      else old(selectedAlgorithms) + [alias]
      ensures timeout == old(timeout) && challengeSize == old(challengeSize)
      ensures securedRelyingPartyId == old(securedRelyingPartyId)
    {
      algorithms := algorithms[alias := identifier];
      var appended := selectedAlgorithms + [alias];
      assert appended[|appended| - 1] == alias;
      if NoDuplicates(selectedAlgorithms) {
        ArrayUniqueAppend(selectedAlgorithms, alias);
      }
      selectedAlgorithms := ArrayUnique(appended);
    }

    /** `setSecuredRelyingPartyId($ids)`: an empty list is rejected and nothing changes. */
    method SetSecuredRelyingPartyId(ids: seq<string>) returns (r: Outcome<Error>)
      modifies this
      ensures r.Fail? <==> ids == []
      ensures r.Fail? ==> r.error == InvalidRelyingPartyIdList && securedRelyingPartyId == old(securedRelyingPartyId)
      ensures r.Pass? ==> securedRelyingPartyId == ids
      ensures timeout == old(timeout) && challengeSize == old(challengeSize)
      ensures algorithms == old(algorithms) && selectedAlgorithms == old(selectedAlgorithms)
    {
      if |ids| == 0 {
        return Fail(InvalidRelyingPartyIdList);
      }
      securedRelyingPartyId := ids;
      return Pass;
    }

    /**
     * `generatePublicKeyCredentialCreationOptions(...)`. `random` is what
     * `random_bytes($this->challengeSize)` returns; it throws for a size below 1.
     */
    method GeneratePublicKeyCredentialCreationOptions(
      user: UserEntity,
      attestationMode: Option<string>,
      excluded: seq<Descriptor>,
      criteria: Option<SelectionCriteria>,
      extensions: Option<Extensions>,
      random: seq<byte>)
      returns (r: Result<CreationOptions, Error>)
      requires challengeSize >= 1 ==> |random| == challengeSize
      ensures GenerateManager(algorithms, selectedAlgorithms).Failure? ==>
                r == Failure(GenerateManager(algorithms, selectedAlgorithms).error)
      ensures GenerateManager(algorithms, selectedAlgorithms).Success? && challengeSize < 1 ==>
                r == Failure(ChallengeSizeInvalid)
      ensures r.Success? ==>
                var ids := GenerateManager(algorithms, selectedAlgorithms).value;
                var o := r.value;
                && challengeSize >= 1
                && o.rp == rpEntity && o.user == user
                && o.challenge == random && |o.challenge| == challengeSize
                && |o.pubKeyCredParams| == |ids|
                && (forall k :: 0 <= k < |ids| ==> o.pubKeyCredParams[k] == CredentialParameters(PUBLIC_KEY, ids[k]))
                && o.excludeCredentials == excluded
                && o.authenticatorSelection == criteria.GetOr(DefaultCriteria)
                && o.attestation == attestationMode.GetOr(ATTESTATION_NONE)
                && o.extensions == extensions.GetOr(NoExtensions)
                && o.timeout == timeout
      ensures r.Success? <==> GenerateManager(algorithms, selectedAlgorithms).Success? && challengeSize >= 1
    {
      var manager := GenerateManager(algorithms, selectedAlgorithms);
      if manager.Failure? {
        return Failure(manager.error);
      }
      var ids := manager.value;
      var parameters: seq<CredentialParameters> := [];
      var i := 0;
      while i < |ids|
        invariant 0 <= i <= |ids|
        invariant |parameters| == i
        invariant forall k :: 0 <= k < i ==> parameters[k] == CredentialParameters(PUBLIC_KEY, ids[k])
      {
        parameters := parameters + [CredentialParameters(PUBLIC_KEY, ids[i])];
        i := i + 1;
      }
      var selection := criteria.GetOr(DefaultCriteria);
      var inputs := extensions.GetOr(NoExtensions);
      if challengeSize < 1 {
        return Failure(ChallengeSizeInvalid);
      }
      var challenge := random;
      return Success(CreationOptions(
        rpEntity, user, challenge, parameters, excluded, selection,
        attestationMode.GetOr(ATTESTATION_NONE), inputs, timeout));
    }

    /**
     * `generatePublicKeyCredentialRequestOptions(...)`. `random` is what
     * `random_bytes($this->challengeSize)` returns; it throws for a size below 1.
     */
    function GeneratePublicKeyCredentialRequestOptions(
      userVerification: Option<string>,
      allowed: seq<Descriptor>,
      extensions: Option<Extensions>,
      random: seq<byte>): (r: Result<RequestOptions, Error>)
      reads this
      requires challengeSize >= 1 ==> |random| == challengeSize
      ensures r.Failure? <==> challengeSize < 1
      ensures r.Failure? ==> r.error == ChallengeSizeInvalid
      ensures r.Success? ==>
                && |r.value.challenge| == challengeSize
                && r.value.rpId == rpEntity.id
                && (userVerification.None? ==> r.value.userVerification == USER_VERIFICATION_PREFERRED)
                && (userVerification.Some? ==> r.value.userVerification == userVerification.value)
                && r.value.allowCredentials == allowed
                && r.value.timeout == timeout
                && (extensions.None? ==> r.value.extensions == NoExtensions)
                && (extensions.Some? ==> r.value.extensions == extensions.value)
    {
      if challengeSize < 1 then Failure(ChallengeSizeInvalid)
      else
        Success(RequestOptions(
          random, rpEntity.id, userVerification.GetOr(USER_VERIFICATION_PREFERRED),
          allowed, timeout, extensions.GetOr(NoExtensions)))
    }

    /**
     * `loadAndCheckAttestationResponse($data, $options, $hostname)`. The
     * attestation statement support manager needs a COSE manager first; then
     * the loader parses `data`, the response must be an attestation, and the
     * validator decides, seeing the secured relying party IDs and the store.
     */
    method LoadAndCheckAttestationResponse(
      data: string,
      options: CreationOptions,
      hostname: string,
      loader: string -> Result<PublicKeyCredential, Error>,
      validator: (AuthenticatorResponse, CreationOptions, string, seq<string>, Table) -> Result<Source, Error>)
      returns (r: Result<Source, Error>)
      ensures GenerateManager(algorithms, selectedAlgorithms).Failure? ==>
                r == Failure(GenerateManager(algorithms, selectedAlgorithms).error)
      ensures GenerateManager(algorithms, selectedAlgorithms).Success? && loader(data).Failure? ==>
                r == Failure(loader(data).error)
      ensures GenerateManager(algorithms, selectedAlgorithms).Success? && loader(data).Success?
              && !loader(data).value.response.AttestationResponse? ==>
                r == Failure(NotAnAttestationResponse)
      ensures GenerateManager(algorithms, selectedAlgorithms).Success? && loader(data).Success?
              && loader(data).value.response.AttestationResponse? ==>
                r == validator(loader(data).value.response, options, hostname, securedRelyingPartyId, repository.Load())
      ensures r.Success? ==>
                && GenerateManager(algorithms, selectedAlgorithms).Success?
                && loader(data).Success? && loader(data).value.response.AttestationResponse?
    {
      var manager := GenerateManager(algorithms, selectedAlgorithms);
      if manager.Failure? {
        return Failure(manager.error);
      }
      var credential := loader(data);
      if credential.Failure? {
        return Failure(credential.error);
      }
      var response := credential.value.response;
      if !response.AttestationResponse? {
        return Failure(NotAnAttestationResponse);
      }
      r := validator(response, options, hostname, securedRelyingPartyId, repository.Load());
    }

    /**
     * `loadAndCheckAssertionResponse($data, $options, $userEntity, $hostname)`.
     * As the attestation path, with the other response kind; the validator is
     * given the raw credential ID and the expected user handle: the user's ID,
     * or none without a user. The validator works on the server's store: the
     * source it accepts (with its new signature counter) is saved through
     * `saveCredentialSource` at time `now` before it is returned.
     */
    method LoadAndCheckAssertionResponse(
      data: string,
      options: RequestOptions,
      userEntity: Option<UserEntity>,
      hostname: string,
      loader: string -> Result<PublicKeyCredential, Error>,
      validator: (seq<byte>, AuthenticatorResponse, RequestOptions, string, Option<string>, seq<string>, Table) -> Result<Source, Error>,
      now: int)
      returns (r: Result<Source, Error>)
      requires repository.propertyManager.Valid()
      modifies repository.propertyManager
      ensures repository.propertyManager.Valid()
      ensures r.Failure? ==> unchanged(repository.propertyManager)
      ensures GenerateManager(algorithms, selectedAlgorithms).Failure? ==>
                r == Failure(GenerateManager(algorithms, selectedAlgorithms).error)
      ensures GenerateManager(algorithms, selectedAlgorithms).Success? && loader(data).Failure? ==>
                r == Failure(loader(data).error)
      ensures GenerateManager(algorithms, selectedAlgorithms).Success? && loader(data).Success?
              && !loader(data).value.response.AssertionResponse? ==>
                r == Failure(NotAnAssertionResponse)
      ensures GenerateManager(algorithms, selectedAlgorithms).Success? && loader(data).Success?
              && loader(data).value.response.AssertionResponse? ==>
                r == validator(loader(data).value.rawId, loader(data).value.response, options, hostname,
                                  if userEntity.Some? then Some(userEntity.value.id) else None,
                                  securedRelyingPartyId, old(repository.Load()))
      ensures r.Success? ==>
                && GenerateManager(algorithms, selectedAlgorithms).Success?
                && loader(data).Success? && loader(data).value.response.AssertionResponse?
      ensures r.Success? ==>
                var t, k := old(repository.Load()), KeyOf(r.value.publicKeyCredentialId);
                && repository.propertyManager.hasEntry
                && repository.Load() == Put(t, k, SavedEntry(Get(t, k), r.value, now))
                && repository.propertyManager.properties == old(repository.propertyManager.properties)[PROPERTY := Sources(repository.Load())]
    {
      var manager := GenerateManager(algorithms, selectedAlgorithms);
      if manager.Failure? {
        return Failure(manager.error);
      }
      var credential := loader(data);
      if credential.Failure? {
        return Failure(credential.error);
      }
      var response := credential.value.response;
      if !response.AssertionResponse? {
        return Failure(NotAnAssertionResponse);
      }
      var handle := if userEntity.Some? then Some(userEntity.value.id) else None;
      r := validator(credential.value.rawId, response, options, hostname, handle, securedRelyingPartyId, repository.Load());
      if r.Success? {
        repository.SaveCredentialSource(r.value, now);
      }
    }
  }
}
