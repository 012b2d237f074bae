/** What the gated entrypoint guarantees, stated over all inputs: which
    instructions are checked, against which account, with which error, and
    that everything else reaches the wrapped `entry` untouched. */
module IdlGuardProperties {
  import opened Solana
  import opened IdlGuard

  /** The invocation called `entry` with exactly the original arguments and
      returned its result unchanged. */
  predicate Forwarded(inv: Invocation, entry: EntryFn,
                      programId: Pubkey, accounts: seq<AccountInfo>, data: seq<Byte>)
  {
    inv == Invocation(Some(EntryCall(programId, accounts, data)), entry(programId, accounts, data))
  }

  /** The invocation failed with `e` and never called `entry`. */
  predicate Rejected(inv: Invocation, e: ProgramError)
  {
    inv == Invocation(None, Err(e))
  }

  /** The account index an instruction must be authorized by, if any: the
      ordinal itself for the two gated sub-instructions. */
  function RequiredIndex(data: seq<Byte>): (r: Option<nat>)
  {
    match IdlOrdinal(data)
    case Some(ordinal) => if ordinal <= 1 then Some(ordinal as nat) else None
    case None => None
  }

  // ---------------------------------------------------------------------------
  // Parsing the instruction data

  /** Data is treated as plain (not an IDL instruction) exactly when it is not
      of the form tag, ordinal, arguments. */
  lemma {:induction false} NotIdlInstructionIff(data: seq<Byte>)
    ensures IdlOrdinal(data).None? <==>
            (forall ordinal, args :: data != IdlInstructionData(ordinal, args))
  {
  }

  // ---------------------------------------------------------------------------
  // The gate, case by case

  /** Data shorter than 9 bytes, or not starting with the tag, reaches `entry`
      unchanged whatever the accounts are. */
  lemma {:induction false} NonIdlDataForwards(authorities: AuthorityList, entry: EntryFn,
                                              programId: Pubkey, accounts: seq<AccountInfo>, data: seq<Byte>)
    requires |data| < 9 || data[..8] != IdlTag
    ensures Forwarded(SafeIdlGatedEntry(authorities, entry, programId, accounts, data),
                      entry, programId, accounts, data)
  {
  }

  /** "Create IDL account" (ordinal 0) is authorized by account 0: no account
      is NotEnoughAccountKeys, a non-authority key is MissingRequiredSignature,
      an authority key reaches `entry`. */
  lemma {:induction false} CreateIdlAccountOutcomes(authorities: AuthorityList, entry: EntryFn,
                                                    programId: Pubkey, accounts: seq<AccountInfo>,
                                                    args: seq<Byte>, data: seq<Byte>)
    requires data == IdlInstructionData(CreateIdlAccount, args)
    ensures accounts == [] ==>
              Rejected(SafeIdlGatedEntry(authorities, entry, programId, accounts, data), NotEnoughAccountKeys)
    ensures accounts != [] && accounts[0].key !in authorities ==>
              Rejected(SafeIdlGatedEntry(authorities, entry, programId, accounts, data), MissingRequiredSignature)
    ensures accounts != [] && accounts[0].key in authorities ==>
              Forwarded(SafeIdlGatedEntry(authorities, entry, programId, accounts, data),
                        entry, programId, accounts, data)
  {
  }

  /** "Create IDL buffer" (ordinal 1) is authorized by account 1 alone: fewer
      than two accounts is NotEnoughAccountKeys even when account 0 is an
      authority. */
  lemma {:induction false} CreateIdlBufferOutcomes(authorities: AuthorityList, entry: EntryFn,
                                                   programId: Pubkey, accounts: seq<AccountInfo>,
                                                   args: seq<Byte>, data: seq<Byte>)
    requires data == IdlInstructionData(CreateIdlBuffer, args)
    ensures |accounts| < 2 ==>
              Rejected(SafeIdlGatedEntry(authorities, entry, programId, accounts, data), NotEnoughAccountKeys)
    ensures |accounts| >= 2 && accounts[1].key !in authorities ==>
              Rejected(SafeIdlGatedEntry(authorities, entry, programId, accounts, data), MissingRequiredSignature)
    ensures |accounts| >= 2 && accounts[1].key in authorities ==>
              Forwarded(SafeIdlGatedEntry(authorities, entry, programId, accounts, data),
                        entry, programId, accounts, data)
  {
  }

  /** Any ordinal other than 0 and 1 reaches `entry` without looking at the
      accounts. */
  lemma {:induction false} UncheckedOrdinalForwards(authorities: AuthorityList, entry: EntryFn,
                                                    programId: Pubkey, accounts: seq<AccountInfo>,
                                                    ordinal: Byte, args: seq<Byte>, data: seq<Byte>)
    requires ordinal != CreateIdlAccount && ordinal != CreateIdlBuffer
    requires data == IdlInstructionData(ordinal, args)
    ensures Forwarded(SafeIdlGatedEntry(authorities, entry, programId, accounts, data),
                      entry, programId, accounts, data)
  {
  }

  /** The whole decision in one place: the gate fails only for ordinals 0 and
      1, with NotEnoughAccountKeys when the required account is absent (checked
      first) and MissingRequiredSignature only when it is present and its key
      is not an authority. */
  lemma {:induction false} GateDecision(data: seq<Byte>, accounts: seq<AccountInfo>, authorities: AuthorityList)
    ensures Gate(data, accounts, authorities) == Fail(NotEnoughAccountKeys) <==>
            RequiredIndex(data).Some? && |accounts| <= RequiredIndex(data).value
    ensures Gate(data, accounts, authorities) == Fail(MissingRequiredSignature) <==>
            RequiredIndex(data).Some? && RequiredIndex(data).value < |accounts|
            && accounts[RequiredIndex(data).value].key !in authorities
    ensures Gate(data, accounts, authorities) == Pass <==>
            RequiredIndex(data).None?
            || (RequiredIndex(data).value < |accounts| && accounts[RequiredIndex(data).value].key in authorities)
  {
  }

  // ---------------------------------------------------------------------------
  // What the decision depends on

  /** Only membership in the authority list matters: reordering it or
      repeating entries changes no outcome. */
  lemma {:induction false} SameAuthoritiesSameGate(data: seq<Byte>, accounts: seq<AccountInfo>,
                                                   a1: AuthorityList, a2: AuthorityList)
    requires forall k :: k in a1 <==> k in a2
    ensures Gate(data, accounts, a1) == Gate(data, accounts, a2)
  {
  }

  /** A permutation of the authority list gives the same gate. */
  lemma {:induction false} PermutedAuthoritiesSameGate(data: seq<Byte>, accounts: seq<AccountInfo>,
                                                       a1: AuthorityList, a2: AuthorityList)
    requires multiset(a1) == multiset(a2)
    ensures Gate(data, accounts, a1) == Gate(data, accounts, a2)
  {
    forall k ensures k in a1 <==> k in a2 {
      assert k in a1 <==> k in multiset(a1);
      assert k in a2 <==> k in multiset(a2);
    }
    SameAuthoritiesSameGate(data, accounts, a1, a2);
  }

  /** Inserting a copy of an authority anywhere in the list gives the same
      gate. */
  lemma {:induction false} DuplicatedAuthoritySameGate(data: seq<Byte>, accounts: seq<AccountInfo>,
                                                       authorities: AuthorityList, i: nat, j: nat)
    requires i < |authorities| && j <= |authorities|
    ensures Gate(data, accounts, authorities[..j] + [authorities[i]] + authorities[j..])
            == Gate(data, accounts, authorities)
  {
  }

  /** The gate reads only the accounts' keys: signer and writable flags play
      no part. */
  lemma {:induction false} GateReadsOnlyKeys(data: seq<Byte>, acc1: seq<AccountInfo>, acc2: seq<AccountInfo>,
                                             authorities: AuthorityList)
    requires Keys(acc1) == Keys(acc2)
    ensures Gate(data, acc1, authorities) == Gate(data, acc2, authorities)
  {
  }

  /** Every listed authority can pass both gated instructions, even through
      an account that is not marked as a signer: the list is never empty, so
      the gate is never closed to everyone, and it checks keys, not
      signatures. */
  lemma {:induction false} EveryAuthorityPasses(authorities: AuthorityList, i: nat, other: AccountInfo,
                                                args: seq<Byte>)
    requires i < |authorities|
    ensures Gate(IdlInstructionData(CreateIdlAccount, args),
                 [AccountInfo(authorities[i], false, false)], authorities) == Pass
    ensures Gate(IdlInstructionData(CreateIdlBuffer, args),
                 [other, AccountInfo(authorities[i], false, false)], authorities) == Pass
  {
  }
}
