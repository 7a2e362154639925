# Event handler configuration loader

A Dafny model of the configuration loader of a Janus event-handler plugin
(`src/config.rs`). The loader reads the `general` section of an INI file and
builds an immutable `Config` with three fields:

- `enabled`: true only for the exact value `yes`, default true;
- `db_path`: the value verbatim, default `events.db`;
- `events`: the value parsed as a base-10 `u32` and truncated to the known
  event-category flags. The default is every known flag, used when the key is
  absent or its value does not parse.

Loading fails when the file cannot be read or parsed, and when it has no
`general` section. A bad `events` value is not an error.

Modules:

- `Wrappers` (`wrappers.dfy`): `Option` and `Result` with the Rust
  combinators the loader chains (`map`, `and_then`, `unwrap_or`, `ok_or`),
  `?` as `:-`, and `MapErr`, which stands for the `From` conversion that `?`
  applies to the ini crate's error at src/config.rs:43.
- `Uint32` (`uint32.dfy`): the `u32` range and the bitwise AND, defined bit
  by bit on integers, with its algebra (idempotent, commutative,
  associative; AND with `u32::MAX` changes nothing).
- `DecimalU32` (`decimal_u32.dfy`): Rust's `u32::from_str`. The parse
  (`FromStr`, over the checked multiply-and-add digit loop `Accumulate`) is
  proved equal to an independent statement: `IsU32Literal` (an optional
  single `+`, then digits whose value fits in 32 bits) and `LiteralValue`
  (their positional value).
- `EventFlags` (`event_flags.dfy`): `JanusEventType` as a `u32` mask.
  `KNOWN`, the union of all flags, is a constant whose value is left open,
  so every result holds whatever flags the janus crate defines.
  `FromBitsTruncate` is `bits & KNOWN`.
- `ConfigLoader` (`config.dfy`): `ParseYesNo`, `ParseEvents`, `Config`,
  `Default`, `FromSection` (the record built from the `general` section) and
  `FromPath`. `FromPath` takes the outcome of loading the INI file as its
  input.

## Model

| member | source | states |
|---|---|---|
| `ConfigLoader.ParseYesNoStrict` | src/config.rs:8-10 | `parse_yesno` is true exactly for `yes`; `true`, `1`, `YES`, `Yes`, `no` and the empty string are false |
| `ConfigLoader.ParseEvents` | src/config.rs:12-16 | `parse_events` succeeds exactly when the string is a u32 literal (optional `+`, digits, value at most 4294967295), and then yields that value ANDed with the known flags, which has no unknown bit |
| `ConfigLoader.ParseEventsZero` | src/config.rs:12-16 | `0` gives the empty mask |
| `ConfigLoader.ParseEventsRejectsNonNumbers` | src/config.rs:12-16 | `abc`, the empty string and `-1` give no mask |
| `ConfigLoader.ParseEventsDecimal` | src/config.rs:12-16 | a decimal number parses, truncated to the known flags, exactly when it is at most 4294967295 |
| `ConfigLoader.ParseEventsOnto` | src/config.rs:12-16 | every mask of known flags is what its own decimal spelling parses to |
| `ConfigLoader.Default` | src/config.rs:26-34 | the default configuration has no unknown event bits |
| `ConfigLoader.DefaultValues` | src/config.rs:26-34 | the default is enabled, `events.db`, every known flag; an empty `general` section loads as exactly the default |
| `ConfigLoader.FromSection` | src/config.rs:46-60 | every configuration built from a section has no unknown event bits |
| `ConfigLoader.FromPath` | src/config.rs:39-61 | a load error becomes that error; a file without `general` is `MissingGeneral` and yields no configuration, not even the default, whatever other sections hold; otherwise the result is exactly the configuration built from the `general` section, with no unknown event bits |
| `ConfigLoader.EnabledRule` | src/config.rs:48-51 | `enabled` is false exactly when the key is present with a value other than `yes` |
| `ConfigLoader.DbPathRule` | src/config.rs:52-55 | `db_path` is the key's value verbatim when present and `events.db` when absent |
| `ConfigLoader.EventsRule` | src/config.rs:56-59 | `events` is the parsed value ANDed with the known flags when the key holds a u32 literal, and all known flags when it is absent or unparsable |
| `ConfigLoader.FieldsAreIndependent` | src/config.rs:46-59 | two sections that agree on one key give the same value for that key's field, whatever the other keys are |
| `ConfigLoader.AbsentKeysKeepDefaults` | src/config.rs:46-59 | an absent key leaves its field equal to the default's, whatever the other keys are |
| `ConfigLoader.AllExplicit` | src/config.rs:47-60 | `enabled = yes`, `db_path = /tmp/x.db`, `events = 3`, with bits 0 and 1 known, give exactly (true, `/tmp/x.db`, 3) |
| `DecimalU32.FromStr` | src/config.rs:13 | `u32::from_str` succeeds exactly on u32 literals and returns their positional value |
| `DecimalU32.AccumulateMeansValue` | src/config.rs:13 | the digit loop's early rejection on overflow accepts exactly the digit strings whose whole value fits, and returns that value |
| `DecimalU32.FromStrDecimal` | src/config.rs:13 | every u32 is parsed back from its decimal spelling, with or without a `+` |
| `DecimalU32.FromStrOverflow` | src/config.rs:13 | a number above 4294967295 is rejected, with or without a `+` |
| `DecimalU32.FromStrRejects` | src/config.rs:13 | the empty string, a lone sign, a `-` sign, a double `+`, a leading or trailing space and letters are rejected |
| `DecimalU32.Decimal` | src/config.rs:13 | the decimal spelling of a number is a non-empty digit string whose value is that number |
| `Uint32.And` | src/config.rs:14 | a bitwise AND is no larger than either operand, so it stays a u32 |
| `EventFlags.FromBitsTruncate` | src/config.rs:14 | `from_bits_truncate` yields a mask with no unknown bits and no bit that the raw value lacks |
| `EventFlags.TruncateIsLargestKnownSubset` | src/config.rs:14 | every known flag set in the raw value survives truncation |
| `EventFlags.TruncateIsUnique` | src/config.rs:14 | `from_bits_truncate(bits)` is the one known mask within `bits` that holds every known mask within `bits` |
| `EventFlags.SubsetAntisymmetric` | src/config.rs:14 | two masks each contained in the other are equal |
| `EventFlags.TruncateIdempotent` | src/config.rs:14 | truncating twice gives the same mask as truncating once |
| `EventFlags.TruncateExtremes` | src/config.rs:14 | a raw 0 gives the empty mask and a raw 4294967295 gives every known flag |
| `EventFlags.All` | src/config.rs:31 | `all()` has no unknown bits |

## Left out

- Reading and parsing the INI file (`Ini::load_from_file`, src/config.rs:43) belongs to the ini crate: I/O, comments, whitespace trimming and duplicate keys are its business. `FromPath` takes the outcome, either an I/O or syntax error, or a map from section name (`None` for keys before any header) to a key/value map.
- The bit layout of `JanusEventType` is defined in the janus crate, which is not part of this model; `KNOWN` is an unspecified `u32` constant.
- `ParseEvents`: the error kinds of `u32::from_str` (empty, invalid digit, overflow) are merged into `None`, because `.ok()` at src/config.rs:15 discards them.
- `PathBuf` is a plain string: `PathBuf::from` does no normalisation.
- The error is a small datatype (`Load(IoError | SyntaxError)`, `MissingGeneral`) instead of a boxed error with a message.
- The derived `Debug` and `Clone` implementations are not modelled.
- Loading the same file twice gives equal results because every member is a function; no separate lemma states it.
- A base-10 `u32` is usually read as digits only, but `u32::from_str` also accepts a single leading `+`. The model follows the code and accepts it.
