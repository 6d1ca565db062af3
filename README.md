# Trap codes and traps of a WebAssembly runtime

This project models the trap vocabulary of the wasmer runtime
(`lib/types/src/trapcode.rs`). It has two parts:

- `TrapCodes` (`trap_code.dfy`) is the closed taxonomy of twelve trap codes.
  Each code has a `repr(u32)` discriminant (0 to 11), a human-readable
  message and a short tag. `Display` writes the tag and `FromStr` parses it
  back. `FromStr`'s `Result<TrapCode, ()>` becomes an `Option<TrapCode>`,
  where `None` stands for `Err(())`.
- `Traps` (`trap.dfy`) is the `Trap` envelope with its four variants (`User`,
  `Wasm`, `Lib`, `OOM`) and the constructors `Trap::wasm`, `Trap::lib` and
  `Trap::oom`. The user error object and the native backtrace are type
  parameters `E` and `B`. The model stores them and never looks inside.
  `CodeOf` and `BacktraceOf` are observers that say which variants carry a
  code and which carry a backtrace.

`wrappers.dfy` holds the `Option` type.

The proved properties are:

- the round trip `Parse(Tag(c)) == Some(c)`;
- its converse: a parse succeeds exactly on the twelve tags, with no prefix
  matching, no case folding and no numeric fallback;
- tags, messages and discriminants are pairwise distinct;
- discriminants map the codes onto 0..11 in declaration order;
- each trap constructor echoes its arguments.

## Model

| member | source | states |
|---|---|---|
| TrapCodes.Discriminant | lib/types/src/trapcode.rs:26-70 | every code's `repr(u32)` discriminant lies below the code count of 12 |
| TrapCodes.AllCodesInDeclarationOrder | lib/types/src/trapcode.rs:139-152 | the table of all codes has 12 entries, holds each code at the index equal to its discriminant, and contains every code |
| TrapCodes.DiscriminantInjective | lib/types/src/trapcode.rs:26-70 | two codes are equal exactly when their discriminants are equal |
| TrapCodes.DiscriminantOnto | lib/types/src/trapcode.rs:26-70 | every number from 0 to 11 is the discriminant of some code, so discriminants are a bijection onto 0..11 |
| TrapCodes.Message | lib/types/src/trapcode.rs:74-89 | every code has a non-empty message |
| TrapCodes.MessageInjective | lib/types/src/trapcode.rs:74-89 | two codes have the same message exactly when they are the same code |
| TrapCodes.Tag | lib/types/src/trapcode.rs:93-109 | the display tag of every code is non-empty and made only of lower-case ASCII letters and `_` |
| TrapCodes.TagInjective | lib/types/src/trapcode.rs:94-107 | two codes have the same tag exactly when they are the same code |
| TrapCodes.TagsPrefixFree | lib/types/src/trapcode.rs:94-107 | no code's tag is a prefix of a different code's tag |
| TrapCodes.Parse | lib/types/src/trapcode.rs:115-131 | a successful parse returns the code whose display tag is exactly the input |
| TrapCodes.ParseTag | lib/types/src/trapcode.rs:155-158 | parsing the display tag of any code returns that code |
| TrapCodes.ParseExact | lib/types/src/trapcode.rs:116-129 | parsing `s` returns code `c` exactly when `s` is `c`'s tag |
| TrapCodes.ParseSucceedsIffTag | lib/types/src/trapcode.rs:116-129 | a parse succeeds exactly when the input is the tag of some code; every other string is rejected |
| TrapCodes.ParseRejectsExtendedTag | lib/types/src/trapcode.rs:116-129 | a tag followed by one or more further characters is rejected, so there is no prefix matching |
| TrapCodes.ParseRejectsForeignChar | lib/types/src/trapcode.rs:116-129 | a string with any character other than a lower-case letter or `_` is rejected, so there is no case folding and no numeric form |
| TrapCodes.ParseRejectsTestStrings | lib/types/src/trapcode.rs:160-166 | `"bogus"`, `"user"`, `"user-1"` and `"users"` are all rejected |
| Traps.CodeOf | lib/types/src/trapcode.rs:172-205 | only `Wasm` and `Lib` traps can carry a code; a `Lib` trap always carries its code; `User` and `OOM` traps carry none |
| Traps.BacktraceOf | lib/types/src/trapcode.rs:172-205 | a trap carries a backtrace exactly when it is not a `User` trap |
| Traps.MakeWasm | lib/types/src/trapcode.rs:211-217 | `Trap::wasm` builds a `Wasm` trap whose pc, backtrace and signal code are its arguments |
| Traps.MakeLib | lib/types/src/trapcode.rs:222-228 | `Trap::lib` builds a `Lib` trap carrying the given code and the backtrace captured at construction |
| Traps.MakeOom | lib/types/src/trapcode.rs:233-236 | `Trap::oom` builds an `OOM` trap with no code and the backtrace captured at construction |
| Traps.WasmTrapWithoutCode | lib/types/src/trapcode.rs:184-185 | a `Wasm` trap built without a signal code reports no code |
| Traps.WasmHeapFaultExample | lib/types/src/trapcode.rs:211-217 | a `Wasm` trap at pc 0x1000 with code `HeapAccessOutOfBounds` reports that pc and code, the message "out of bounds memory access" and the tag `heap_get_oob` |
| Traps.LibDivisionByZeroExample | lib/types/src/trapcode.rs:222-228 | a `Lib` trap with `IntegerDivisionByZero` reports that code, the tag `int_divz` (which parses back to it) and the captured backtrace |
| Traps.ConstructorsInjective | lib/types/src/trapcode.rs:211-236 | two traps from the same constructor are equal exactly when their arguments are equal, and a `Lib` trap is never an `OOM` trap |

## Left out

- Backtrace capture (`Backtrace::new_unresolved`) is a native stack walk. The captured value is a parameter `captured` of `MakeLib` and `MakeOom`. Whether it is resolved, and what frames it holds, is not modelled.
- The `User` payload (`Box<dyn Error + Send + Sync>`) is the type parameter `E`. It is stored and never inspected. The source has no constructor function for `User`, so the model has none either.
- `Display::fmt` writing to a `Formatter` is modelled as the tag string it writes (`Tag`). The formatter itself is output and is not modelled, so the model has no case where the write fails.
- `pc: usize` is modelled as `Usize`, the integers from 0 below 2^64. This assumes a 64-bit target.
- The derived traits (`Clone`, `Copy`, `PartialEq`, `Eq`, `Debug`, `Hash`, `thiserror::Error`, `loupe::MemoryUsage`) and the feature-gated serde and rkyv codecs are library-generated code whose source is not shown. Dafny's own datatype equality stands in for `PartialEq`/`Eq`.
- The unit test's loop over all codes is stated as the lemma `ParseTag` for every code, not as a loop.
- `tests/integration/cli/src/util.rs` is left out. `run_code` spawns a subprocess and decodes its output, which is process I/O. The `to_flag` tables are constant strings with no behaviour to verify.
- `lib/compiler-cranelift/src/debug/mod.rs` is left out. It only re-exports items of `address_map` and `frame_layout`, which are not part of this model.
