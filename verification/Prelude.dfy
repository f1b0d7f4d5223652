// Names shared by every module: identifiers, optional values, and the result that the use
// cases return.

module Prelude {

  type UserId = nat

  // One in-flight request. A request runs its own steps in order; requests interleave freely.
  type CallId = nat

  datatype Option<+T> = None | Some(value: T)

  datatype Result<+T> = Ok(value: T) | Err(error: ServiceError)

  datatype ServiceError =
    | RedisUnavailable
    | DatabaseUnavailable
    | RateLimited
    | UserNotFound
    | SourceIpUnavailable
    | SecretUnreadable
    | PasskeyDisabled
    | PasskeyUpdateConflict
    | FirstFactorAlreadyExists
    | AuthenticationEpochChanged
    | CredentialRejected

  type Byte = n: nat | n < 256
  type Bytes = seq<Byte>
  type u32 = n: nat | n < 0x1_0000_0000

  datatype FactorMethod = Totp | Passkey

  // A WebAuthn challenge remembers the issuer generation of the snapshot it was made under. The rest
  // is history: the WebAuthn identity it was made for, and whether no persisted issuer row stood
  // behind that snapshot.
  datatype Challenge = Challenge(generation: int, identity: nat, unbacked: bool)

  // Clock readings are in milliseconds; lifetimes are written in whole seconds.
  const SECOND: int := 1000
}
