# anchor-idl-guard, modelled in Dafny

The `entrypoint!` macro of anchor-idl-guard generates `__safe_idl_gated_entry`.
This function stands in front of an Anchor program's own `entry`. The Solana
runtime calls it for every instruction. It looks at the raw instruction data:

- Data of at least 9 bytes that starts with the 8-byte IDL tag
  `40 f4 bc 78 a7 e9 69 0a` is an IDL instruction, and its 9th byte is the
  sub-instruction ordinal.
- Ordinal 0 ("create IDL account") must be authorized by account 0. Ordinal 1
  ("create IDL buffer") must be authorized by account 1.
- A missing account fails with `NotEnoughAccountKeys`. An account whose key is
  not in the build-time `IDL_AUTHORITIES` list fails with
  `MissingRequiredSignature`.
- Any other ordinal, and any other data, is not checked.
- Whatever is not stopped goes to `entry` with the original program id,
  accounts and data, and `entry`'s result is returned as it is.

The model is three modules of pure functions and lemmas, because the source is
a pure decision on immutable inputs:

- `Solana` (solana.dfy): bytes, 32-byte public keys, the account view
  (`key`, `isSigner`, `isWritable`), `ProgramError`, `ProgramResult` and the
  type of an entrypoint function.
- `IdlGuard` (idl_guard.dfy): the macro arms that build the authority list,
  the tag and ordinal parse, the `iter().any` scan, the per-account check,
  the gate and the gated entrypoint. The wrapped `entry` is a parameter of
  the gated entrypoint, as is the authority list. An invocation returns an
  `Invocation` record saying whether `entry` was called, with which
  arguments, and what was returned. This makes "entry is never reached on
  failure" a statement about the result.
- `IdlGuardProperties` (idl_guard_properties.dfy): the all-inputs lemmas.

Terminology follows the code. The two errors are the runtime's
`NotEnoughAccountKeys` and `MissingRequiredSignature`.

The check compares keys only. An authority key held by an account that is not
marked as a signer passes the gate (`EveryAuthorityPasses` states this). Any
signature requirement is left to the wrapped program. The model states this
behaviour and does not add a signer check.

Calling the gated entrypoint twice with the same inputs gives the same result.
This holds by construction, because the model is a function of its inputs and
of the `entry` it is given.

## Model

| member | source | states |
|---|---|---|
| `IdlGuard.AuthoritiesFromList` | src/lib.rs:6-12 | the list arm builds an authority list exactly when at least one literal is given, and the list holds those literals; an empty list is refused |
| `IdlGuard.AuthoritiesFromLiteral` | src/lib.rs:3-5 | the single-literal arm gives the same list as the list arm on a one-element list; its only authority is that literal |
| `IdlGuard.AnyAuthority` | src/lib.rs:33 | the left-to-right `any` scan finds a key exactly when the key is a member of the list |
| `IdlGuard.Authorize` | src/lib.rs:30-44 | looking up the account at an index: absent gives NotEnoughAccountKeys; present with a key not in the list gives MissingRequiredSignature; present with a listed key passes; each outcome holds in both directions |
| `IdlGuard.Gate` | src/lib.rs:24-50 | the gate only ever fails with NotEnoughAccountKeys or MissingRequiredSignature, and only for IDL data with ordinal 0 or 1 |
| `IdlGuard.SafeIdlGatedEntry` | src/lib.rs:18-52 | `entry` is called exactly when the gate passes, with the original program id, accounts and data, and its result is returned unchanged; otherwise `entry` is not called and the gate's error is returned |
| `IdlGuard.IdlOrdinal` | src/lib.rs:24-25 | parsing is the inverse of the wire encoding: data it accepts is exactly the tag, the returned ordinal and the remaining bytes, and tag, ordinal and arguments always parse back to that ordinal |
| `IdlGuardProperties.NotIdlInstructionIff` | src/lib.rs:24 | data is treated as non-IDL exactly when it is not of the form tag, ordinal, arguments |
| `IdlGuardProperties.NonIdlDataForwards` | src/lib.rs:24-51 | data shorter than 9 bytes, or not starting with the tag, reaches `entry` unchanged whatever the accounts |
| `IdlGuardProperties.CreateIdlAccountOutcomes` | src/lib.rs:27-36 | for tag followed by 0: no accounts gives NotEnoughAccountKeys; a non-authority account 0 gives MissingRequiredSignature; an authority account 0 reaches `entry` unchanged; on failure `entry` is not called |
| `IdlGuardProperties.CreateIdlBufferOutcomes` | src/lib.rs:38-47 | for tag followed by 1: the same three outcomes keyed on account 1; fewer than two accounts gives NotEnoughAccountKeys even when account 0 is an authority |
| `IdlGuardProperties.UncheckedOrdinalForwards` | src/lib.rs:48-51 | for tag followed by any ordinal other than 0 and 1, `entry` is reached unchanged whatever the accounts |
| `IdlGuardProperties.GateDecision` | src/lib.rs:25-49 | the full decision in terms of the required index, which equals the ordinal: NotEnoughAccountKeys exactly when that account is absent, MissingRequiredSignature exactly when it is present and not an authority (so the missing-account check comes first), pass otherwise |
| `IdlGuardProperties.SameAuthoritiesSameGate` | src/lib.rs:33 | two authority lists with the same members give the same gate outcome on every input |
| `IdlGuardProperties.PermutedAuthoritiesSameGate` | src/lib.rs:33 | permuting the authority list changes no outcome |
| `IdlGuardProperties.DuplicatedAuthoritySameGate` | src/lib.rs:33 | inserting a copy of any entry anywhere in the authority list changes no outcome |
| `IdlGuardProperties.GateReadsOnlyKeys` | src/lib.rs:30-43 | two account lists with the same keys give the same outcome: signer and writable flags are never read |
| `IdlGuardProperties.EveryAuthorityPasses` | src/lib.rs:11-44 | every listed authority passes both gated instructions, even through an account not marked as a signer; since the list is never empty, the gate is never closed to everyone |

## Left out

- The build-time checks: the `compile_error!` when `no-entrypoint` is off, and the `cpi` feature switch (src/lib.rs:7-17). They decide whether the gate is compiled at all. They do not change what it does.
- Registration with the runtime through `solana_program::entrypoint!` (src/lib.rs:15), and the runtime's deserialisation of the input. This is host plumbing.
- The `msg!` log lines and the `no-log-ix-name` switch. They are output only. Their order differs: ordinal 0 logs before its check, so it logs even when the check fails. Ordinal 1 logs only after its check passes.
- The body of the wrapped `entry`. It is the Anchor program's own code, so it is a function parameter with no properties assumed.
- `AccountInfo` fields other than `key` and the two flags (lamports, data, owner). The runtime owns them and the gate never reads them.
- Decoding base58 key literals with `anchor_lang::pubkey!`. Keys are taken as already-decoded 32-byte values. The optional trailing comma of the macro's list arm is syntax only.
- `ProgramError` variants other than the two the gate raises. They appear only as `Custom` and `OtherBuiltin`, as values `entry` may return.
