/**
 * The value objects of the web-auth WebAuthn library that the extension
 * passes around (credential sources, entities, option records, loaded
 * responses), reduced to the fields the extension reads or sets, and the
 * exceptions that can be raised on the modelled paths.
 */
module WebAuthn {
  import opened Wrappers
  import opened Php

  /** `PublicKeyCredentialDescriptor::CREDENTIAL_TYPE_PUBLIC_KEY`. */
  const PUBLIC_KEY: string := "public-key"
  /** `PublicKeyCredentialCreationOptions::ATTESTATION_CONVEYANCE_PREFERENCE_NONE`. */
  const ATTESTATION_NONE: string := "none"
  /** `USER_VERIFICATION_REQUIREMENT_PREFERRED`. */
  const USER_VERIFICATION_PREFERRED: string := "preferred"
  /** `USER_VERIFICATION_REQUIREMENT_DISCOURAGED`. */
  const USER_VERIFICATION_DISCOURAGED: string := "discouraged"

  /** A registered authenticator (`PublicKeyCredentialSource`). */
  datatype Source = Source(
    publicKeyCredentialId: seq<byte>,
    transports: seq<string>,
    credentialPublicKey: seq<byte>,
    userHandle: string,
    counter: nat)

  /** `PublicKeyCredentialUserEntity`. */
  datatype UserEntity = UserEntity(name: string, id: string, displayName: string)

  /** `PublicKeyCredentialRpEntity`. */
  datatype RpEntity = RpEntity(name: string, id: string)

  /** `PublicKeyCredentialDescriptor`. */
  datatype Descriptor = Descriptor(credentialType: string, id: seq<byte>, transports: seq<string>)

  /** `$source->getPublicKeyCredentialDescriptor()`. */
  function DescriptorOf(s: Source): Descriptor {
    Descriptor(PUBLIC_KEY, s.publicKeyCredentialId, s.transports)
  }

  /** `PublicKeyCredentialParameters`: a credential type and a COSE algorithm identifier. */
  datatype CredentialParameters = CredentialParameters(credentialType: string, alg: int)

  /** `AuthenticatorSelectionCriteria`. */
  datatype SelectionCriteria = SelectionCriteria(
    authenticatorAttachment: Option<string>,
    requireResidentKey: bool,
    userVerification: string)

  /** `new AuthenticatorSelectionCriteria()`: no attachment preference, no resident key, "preferred". */
  const DefaultCriteria: SelectionCriteria := SelectionCriteria(None, false, USER_VERIFICATION_PREFERRED)

  /** `AuthenticationExtensionsClientInputs`. */
  datatype Extensions = Extensions(inputs: map<string, string>)

  const NoExtensions: Extensions := Extensions(map[])

  /** `PublicKeyCredentialCreationOptions`. */
  datatype CreationOptions = CreationOptions(
    rp: RpEntity,
    user: UserEntity,
    challenge: seq<byte>,
    pubKeyCredParams: seq<CredentialParameters>,
    excludeCredentials: seq<Descriptor>,
    authenticatorSelection: SelectionCriteria,
    attestation: string,
    extensions: Extensions,
    timeout: int)

  /** `PublicKeyCredentialRequestOptions`. */
  datatype RequestOptions = RequestOptions(
    challenge: seq<byte>,
    rpId: string,
    userVerification: string,
    allowCredentials: seq<Descriptor>,
    timeout: int,
    extensions: Extensions)

  /** What the library's loader makes of a client response. */
  datatype AuthenticatorResponse =
    | AttestationResponse(clientDataJson: seq<byte>, attestationObject: seq<byte>)
    | AssertionResponse(clientDataJson: seq<byte>, authenticatorData: seq<byte>, signature: seq<byte>, userHandle: Option<string>)

  /** `PublicKeyCredential`. */
  datatype PublicKeyCredential = PublicKeyCredential(id: string, rawId: seq<byte>, response: AuthenticatorResponse)

  /** Exceptions raised on the modelled paths. */
  datatype Error =
    | UnsupportedAlgorithm(alias: string)    // the COSE manager factory does not know an alias
    | ChallengeSizeInvalid                  // random_bytes() with a length below 1
    | InvalidRelyingPartyIdList             // setSecuredRelyingPartyId([])
    | NotAnAttestationResponse
    | NotAnAssertionResponse
    | VerificationFailed(reason: string)    // anything the library's loader or validators throw
    | CredentialSourceDoesNotExist          // code 1613413321
    | StoredSourceMalformed                 // createFromArray() on an entry without 'publickey'
    | MissingNormalizedParams               // code 1679120978
    | MissingStoredValue(property: string)  // createFromArray() on a property that is not set
}
