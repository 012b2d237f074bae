/** The few host-runtime types the IDL gate touches: bytes, public keys,
    account views, program errors and the signature of a program entrypoint.
    The runtime itself (account data, lamports, transaction signing) is not
    part of this model. */
module Solana {

  /** An unsigned 8-bit value (`u8`). */
  newtype Byte = x: int | 0 <= x < 256

  /** Length in bytes of a public key. */
  const PubkeyLength: nat := 32

  /** A public key, already decoded from its base58 literal. */
  type Pubkey = k: seq<Byte> | |k| == PubkeyLength witness seq(PubkeyLength, _ => 0)

  /** The read-only view of one account that the runtime hands to a program.
      Only `key` matters to the gate; the two flags are kept so that the model
      can say the gate ignores them. */
  datatype AccountInfo = AccountInfo(key: Pubkey, isSigner: bool, isWritable: bool)

  /** The runtime's error type. The gate raises only the first two; the
      others stand for whatever the wrapped program may return. */
  datatype ProgramError =
    | NotEnoughAccountKeys
    | MissingRequiredSignature
    | Custom(code: bv32)
    | OtherBuiltin(name: string)

  /** `ProgramResult`, i.e. `Result<(), ProgramError>`. */
  datatype ProgramResult = Ok | Err(error: ProgramError)

  /** A program entrypoint: program id, accounts and instruction data in,
      a result out. */
  type EntryFn = (Pubkey, seq<AccountInfo>, seq<Byte>) -> ProgramResult

  /** The keys of an account list, in order. */
  function Keys(accounts: seq<AccountInfo>): (keys: seq<Pubkey>)
    ensures |keys| == |accounts|
    ensures forall i :: 0 <= i < |accounts| ==> keys[i] == accounts[i].key
  {
    if accounts == [] then [] else [accounts[0].key] + Keys(accounts[1..])
  }
}
