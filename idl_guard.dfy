/** The gated entrypoint that the `entrypoint!` macro generates in front of an
    Anchor program's own `entry`: IDL "create account" and "create buffer"
    instructions are let through only when the designated account's key is
    one of the compile-time IDL authorities; every other instruction is
    forwarded untouched. */
module IdlGuard {
  import opened Solana

  datatype Option<+T> = None | Some(value: T)

  /** The gate's own verdict: let the call through, or stop it with an error. */
  datatype Outcome = Pass | Fail(error: ProgramError)

  // ---------------------------------------------------------------------------
  // The authority list

  /** `IDL_AUTHORITIES`: fixed at build time and never empty. */
  type AuthorityList = a: seq<Pubkey> | |a| > 0 witness [seq(PubkeyLength, _ => 0 as Byte)]

  /** The list arm of the macro, `[$($pubkey:literal),+ $(,)?]`: it matches one
      or more literals, so an empty list is rejected at build time (None). */
  function AuthoritiesFromList(literals: seq<Pubkey>): (r: Option<AuthorityList>)
    ensures r.None? <==> literals == []
    ensures r.Some? ==> r.value == literals
  {
    if |literals| > 0 then Some(literals) else None
  }

  /** The single-literal arm: it re-invokes the macro on a one-element list. */
  function AuthoritiesFromLiteral(literal: Pubkey): (r: AuthorityList)
    ensures AuthoritiesFromList([literal]) == Some(r)
    ensures forall k :: k in r <==> k == literal
  {
    [literal]
  }

  // ---------------------------------------------------------------------------
  // Recognising an IDL instruction

  /** The 8-byte discriminator that starts every Anchor IDL instruction. */
  const IdlTag: seq<Byte> := [0x40, 0xf4, 0xbc, 0x78, 0xa7, 0xe9, 0x69, 0x0a]

  /** Sub-instruction ordinal of "create IDL account". */
  const CreateIdlAccount: Byte := 0

  /** Sub-instruction ordinal of "create IDL buffer". */
  const CreateIdlBuffer: Byte := 1

  /** The wire form of an IDL instruction: tag, ordinal, then the
      sub-instruction's own arguments. */
  function IdlInstructionData(ordinal: Byte, args: seq<Byte>): (data: seq<Byte>)
    ensures |data| == |IdlTag| + 1 + |args|
  {
    IdlTag + [ordinal] + args
  }

  /** The ordinal byte of an IDL instruction, or None when `data` is too short
      or does not start with the tag. Parsing is the inverse of
      `IdlInstructionData`: accepted data is tag, ordinal and arguments, and
      every such data is accepted with its own ordinal. */
  function IdlOrdinal(data: seq<Byte>): (r: Option<Byte>)
    ensures r.Some? ==> |data| >= 9 && data == IdlInstructionData(r.value, data[9..])
    ensures forall ordinal, args :: data == IdlInstructionData(ordinal, args) ==> r == Some(ordinal)
  {
    if |data| >= 9 && data[..8] == IdlTag then
      assert data == data[..8] + [data[8]] + data[9..];
      Some(data[8])
    else
      None
  }

  // ---------------------------------------------------------------------------
  // The authorization check

  /** `IDL_AUTHORITIES.iter().any(|k| k == key)`: a left-to-right scan that
      stops at the first equal key. */
  function AnyAuthority(authorities: seq<Pubkey>, key: Pubkey): (found: bool)
    ensures found <==> key in authorities
  {
    if authorities == [] then false
    else authorities[0] == key || AnyAuthority(authorities[1..], key)
  }

  /** Look up the account at `index` (`first()` or `get(1)`) and demand that its
      key be an authority: a missing account is NotEnoughAccountKeys, a key
      outside the list is MissingRequiredSignature. */
  function Authorize(accounts: seq<AccountInfo>, index: nat, authorities: AuthorityList): (r: Outcome)
    ensures r.Pass? <==> index < |accounts| && accounts[index].key in authorities
    ensures r == Fail(NotEnoughAccountKeys) <==> |accounts| <= index
    ensures r == Fail(MissingRequiredSignature) <==> index < |accounts| && accounts[index].key !in authorities
  {
    if index >= |accounts| then Fail(NotEnoughAccountKeys)
    else if !AnyAuthority(authorities, accounts[index].key) then Fail(MissingRequiredSignature)
    else Pass
  }

  /** The decision taken before `entry` is reached. Ordinal 0 is authorized by
      account 0, ordinal 1 by account 1, any other ordinal and any non-IDL
      data pass unchecked. */
  function Gate(data: seq<Byte>, accounts: seq<AccountInfo>, authorities: AuthorityList): (r: Outcome)
    ensures r.Fail? ==> r.error == NotEnoughAccountKeys || r.error == MissingRequiredSignature
    ensures r.Fail? ==> IdlOrdinal(data) == Some(CreateIdlAccount) || IdlOrdinal(data) == Some(CreateIdlBuffer)
  {
    match IdlOrdinal(data)
    case None => Pass
    case Some(ordinal) =>
      if ordinal == CreateIdlAccount then Authorize(accounts, 0, authorities)
      else if ordinal == CreateIdlBuffer then Authorize(accounts, 1, authorities)
      else Pass
  }

  // ---------------------------------------------------------------------------
  // The gated entrypoint

  /** The arguments `entry` was called with. */
  datatype EntryCall = EntryCall(programId: Pubkey, accounts: seq<AccountInfo>, data: seq<Byte>)

  /** What one invocation of the gated entrypoint did: whether and how it
      called the wrapped `entry`, and what it returned to the runtime. */
  datatype Invocation = Invocation(call: Option<EntryCall>, result: ProgramResult)

  /** `__safe_idl_gated_entry`, with the wrapped program's `entry` and the
      authority list as parameters. */
  function SafeIdlGatedEntry(authorities: AuthorityList, entry: EntryFn,
                             programId: Pubkey, accounts: seq<AccountInfo>, data: seq<Byte>): (r: Invocation)
    ensures r.call.Some? <==> Gate(data, accounts, authorities).Pass?
    ensures r.call.Some? ==> r.call.value == EntryCall(programId, accounts, data)
                             && r.result == entry(programId, accounts, data)
    ensures r.call.None? ==> r.result == Err(Gate(data, accounts, authorities).error)
  {
    match Gate(data, accounts, authorities)
    case Fail(e) => Invocation(None, Err(e))
    case Pass => Invocation(Some(EntryCall(programId, accounts, data)), entry(programId, accounts, data))
  }
}
