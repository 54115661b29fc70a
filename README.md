# ch: owner, group and mode changes, modelled in Dafny

`ch` changes the owner, group and permission bits of files. For each file
it takes one snapshot (path, owner, group, mode), works out which of the
requested properties differ from that snapshot, builds one change per
differing property kind (an ownership change carrying the new uid and gid,
a mode change carrying the new mode), and applies each change with
`chown(2)` or `chmod(2)`, recording an error per change. A dry run skips
the system calls and reports every change as successful.

This project models that core:

- `bits.dfy` (`Bits`): Rust's `&`, `|` and `!` on `u16`, defined bit by bit
  on natural numbers, with the bit-level laws the mode arithmetic needs.
- `mode.dfy` (`Modes`): `ModeChange::new` (an octal numeral parsed the way
  `from_str_radix(s, 8)` parses it) and `ModeChange::apply`
  (`mode & !subtractive | additive`), with a reference definition of a
  numeral's value, an octal formatter and the unit tests of `src/mode.rs`.
- `file.rs`'s snapshot and `change_properties` (`Files`), with the option
  fields the core reads (`RunOptions`).
- `changes.rs` (`ChangeEngine`): `ChMod::new`, `ChOwn::new`, their `apply`
  functions, `Change::apply`, and the per-file application loop of
  `src/main.rs` as a map over the list of changes.

The system calls are a parameter: a `System` value holds `chmod` and
`chown` as total functions from their arguments to the status they return,
so every result is stated for every possible behaviour of the operating
system.

The imperative constructors (`ChOwn::new`, `change_properties`) are methods
that update a local record step by step, as the source does, and are proved
equal to a specification function (`OwnershipChange`, `ChangesFor`) whose
properties are proved as lemmas.

Notes on the source:

- `src/file.rs:68-69` reads `options.mode` and calls `mode.change(..)`,
  while `src/changes.rs:47-48` reads `options.mode_change` and calls
  `apply`; `src/options.rs` as given has neither `mode_change` nor
  `dry_run`. The model follows `src/changes.rs`: the options carry an
  optional `ModeChange` and a dry-run flag, and both places apply that
  change with `Apply`.
- `mode_t` is modelled as 16 bits wide: `src/changes.rs:65` passes the mode
  to `libc::chmod` through `as u16`, which only type-checks where `mode_t`
  is `u16`.
- `ModeChange::new` accepts every numeral up to 0o177777, not only up to
  0o7777. The additive mask then sets file-type bits as well; the model
  keeps that behaviour (`Modes.NewReplacesPermissionBits`,
  `Modes.NewAboveMaskExample`), and the type bits pass through unchanged
  only for numerals up to 0o7777 (`Modes.NewKeepsFileTypeBits`).

## Model

| member | source | states |
|---|---|---|
| Modes.FromStrRadix8 | src/mode.rs:15 | parsing succeeds exactly for a non-empty string of base-8 digits, optionally after one '+', whose value is below 2^16, and then yields that value |
| Modes.AccumulateMatchesNumeral | src/mode.rs:15 | the digit-by-digit accumulation with its overflow check succeeds exactly when the whole numeral is octal and fits in 16 bits, and then equals the numeral's value |
| Modes.New | src/mode.rs:14-23 | a change exists exactly when the string parses; its additive mask is the numeral's value and its subtractive mask is 0o7777 |
| Modes.Apply | src/mode.rs:25-27 | every additive bit is set in the result, every subtractive bit that is not additive is clear, and every other bit is the current mode's |
| Modes.ApplyDeterminedByBits | src/mode.rs:25-27 | the three bit-level properties of Apply determine its result uniquely |
| Modes.ApplyIdempotent | src/mode.rs:25-27 | applying a change to its own result gives the same result |
| Modes.NewReplacesPermissionBits | src/mode.rs:14-27 | for a change from New, the low twelve bits of the result are the numeral's and the bits above are the current mode's ORed with the numeral's |
| Modes.NewKeepsFileTypeBits | src/mode.rs:14-27 | for a numeral up to 0o7777, the result is the current file-type bits followed by the numeral |
| Modes.NewOfOctal | src/mode.rs:14-23 | every 16-bit value formatted in base 8 parses back to itself, with subtractive mask 0o7777 |
| Modes.NewIgnoresLeadingZero | src/mode.rs:14-23 | a leading zero does not change the outcome of New |
| Modes.NewIgnoresPlusSign | src/mode.rs:14-23 | a single leading '+' does not change the outcome of New |
| Modes.NewRejectsNonDigit | src/mode.rs:14-23 | a character other than 0-7, except a leading '+' before more characters, makes New give no change |
| Modes.NewFromOctalExample | src/mode.rs:35-42 | "0644" gives additive 0o644 and subtractive 0o7777 |
| Modes.NewFromDecimalExample | src/mode.rs:44-48 | "944" gives no change |
| Modes.ApplyExamples | src/mode.rs:50-58 | "0754" maps 0o107777, 0o040777, 0o100755, 0o010644 and 0o170000 to the same type bits with permissions 0o754 |
| Modes.NewAboveMaskExample | src/mode.rs:14-23 | "170000" is accepted and gives the additive mask 0o170000 |
| Files.ChangeProperties | src/file.rs:47-77 | always succeeds, with exactly the changes ChangesFor gives |
| Files.ChangesForFields | src/file.rs:47-77 | each field is absent when not requested, present exactly when the requested uid, gid or applied mode differs from the snapshot's, and then holds the requested owner, group or applied mode |
| Files.NoChangesIffMatches | src/file.rs:47-77 | no field is set exactly when the snapshot already has every requested property |
| Files.ChangesForIndependent | src/file.rs:54-74 | each field depends only on its own request and the snapshot's value of that property |
| Files.ChangesSettle | src/file.rs:47-77 | once the changes are made, the same options find nothing more to change |
| ChangeEngine.NewChMod | src/changes.rs:46-58 | a mode change exists exactly when a mode change is requested and it alters the mode; it carries the file, the options and the new mode, which differs from the old |
| ChangeEngine.NewChOwn | src/changes.rs:85-114 | yields exactly the ownership change OwnershipChange specifies |
| ChangeEngine.OwnershipChangeFields | src/changes.rs:85-114 | there is no change exactly when neither the owner nor the group differs; an owner or group is recorded exactly when it differs, with its id, and otherwise the file's own id is kept |
| ChangeEngine.OwnershipChangeCombines | src/changes.rs:95-110 | when both owner and group differ, one change carries both new ids |
| ChangeEngine.OwnershipChangeSettles | src/changes.rs:85-127 | after chown to the change's ids, a new snapshot needs no ownership change |
| ChangeEngine.ModeChangeSettles | src/changes.rs:46-71 | after chmod to the change's mode, a new snapshot needs no mode change |
| ChangeEngine.ConstructorsAgreeWithChangesFor | src/changes.rs:46-114 | the owner, group and mode of the two constructors' changes are the fields change_properties computes |
| ChangeEngine.ConstructedChangesAreEffective | src/changes.rs:46-114 | every constructed change alters its file: a new mode differs, and a recorded owner or group has a different id |
| ChangeEngine.ApplyChMod | src/changes.rs:60-71 | a dry run succeeds; otherwise success exactly when chmod on the file's path with the new mode returns 0 |
| ChangeEngine.ApplyChOwn | src/changes.rs:116-127 | a dry run succeeds; otherwise success exactly when chown on the file's path with the new ids returns 0 |
| ChangeEngine.ApplyChange | src/changes.rs:25-36 | the applied change records the change itself, and has no error exactly in a dry run or when the system call returns 0 |
| ChangeEngine.DryRunIgnoresSystem | src/changes.rs:60-63 | in a dry run the outcome is success whatever the system would do |
| ChangeEngine.ApplyAll | src/main.rs:36-38 | one applied change per change, in order, each the outcome of applying that change alone |
| ChangeEngine.ApplyAllConcat | src/main.rs:36-38 | applying two lists one after the other equals applying their concatenation |

## Left out

- `File::find` and `Target::new`: they read the file system and the user and group databases; the model starts from a snapshot value.
- `File::c_path` is not part of this model; the system calls receive the snapshot's absolute path (`CPath`).
- `libc::chmod` and `libc::chown`: their effect is the status a `System` value returns; what they do to the file is not modelled, and the settle lemmas take the new snapshot's values as a hypothesis.
- `LibCError::from_errno` and its `Display`: every failure is the single error value `LibCError`; errno is not read.
- `ChangeEngine.ApplyChange`: the error is an `Option<LibCError>` rather than a boxed `dyn Error`, since `LibCError` is the only error the apply functions produce.
- `Files.ChangeProperties`: its error type is `LibCError` in place of a boxed error; it never fails.
- `Modes.FromStrRadix8`: the error kinds are modelled (empty, invalid digit, overflow), but `ModeChange::new` discards them.
- `File::changes`, called at `src/main.rs:32`, is not part of this model; `ApplyAll` takes the list of changes as given.
- Option parsing (`src/options.rs`), reporting (`src/report.rs`), the monitor (`src/monitor.rs`) and the `main` driver: argument handling and output.
- The lifetimes and references of the Rust types are modelled as plain values; changes hold copies of the file and options.
