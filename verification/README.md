# cargo-android, modelled in Dafny

`cargo-android` is a wrapper around `cargo` for building Rust code for
Android. It scans the forwarded arguments for the first `--target`. When that
target names an Android triple, it resolves an NDK installation into the
variables the C toolchain and the linker need:

- `AR_<t>`, `CC_<t>` and `BINDGEN_EXTRA_CLANG_ARGS_<t>`;
- `CARGO_TARGET_<T>_LINKER`;
- for `x86_64-linux-android`, a merged `CARGO_ENCODED_RUSTFLAGS`.

It then runs the real `cargo` with those variables and exits with the child's
exit code.

This project models that decision logic as pure functions over values:

- **Base** (`base.dfy`): `Option`, `Result` and the kinds of error the wrapper
  reports. The message text is not part of the model.
- **Text** (`text.dfy`): the pieces of Rust's `str` API the wrapper uses,
  with their laws. These are `starts_with`, `contains`, `split` on a
  character, `join`, `trim`, `to_ascii_uppercase` and `replace`. Among the laws,
  joining the pieces of a split gives back the string, and splitting a join of
  separator-free pieces gives back the pieces.
- **Os** (`os.dfy`):
  - OS strings, either UTF-8 text or ill-formed data known by its lossy
    rendering.
  - The three host families (Linux, macOS, Windows) with the `NDK_OS`,
    `CLANG_SUFFIX` and `EXE_SUFFIX` constants.
  - `PathBuf::push`: a component that starts with a separator replaces the
    path, and any other is appended, after the main separator unless the
    path is empty or already ends with a separator.
  - The environment as a map.
  - The filesystem as a set of existing paths plus a map from directories to
    their listings.
- **ArgScan** (`arg_scan.dfy`): the `next_is_target` state machine of
  `main_wrapper`. It appears both as a recursive function and as the loop
  itself, and both are proved equal to an independent reference statement,
  `TargetSpec`.
- **ApiLevel** (`api_level.dfy`): Rust's `u8` parsing and decimal
  formatting, the `ANDROID_API` override, and the maximum over a
  directory listing.
- **RustFlags** (`rust_flags.dfy`): the existing flags, either split on
  `\x1f` or taken as the space-separated tokens of `RUSTFLAGS`, and their
  merge with the four runtime flags.
- **AndroidEnv** (`android_env.dfy`): `get_android_env`, staged as
  `Resolve` (NDK root, toolchain directory, API level) followed by
  `AndroidVars` (the variables, and the runtime directory for x86-64).
- **Launcher** (`launcher.dfy`): the rest of `main_wrapper`, which covers
  `CARGO`, the Android gating, and the spawn and wait reduced to their outcome.
  It also holds `get_exit_code` and `main`.

The encoded flags variable is taken verbatim: an empty value is one empty
token, so the merge then starts with a separator (`MergedKeepsEncoded`).

## Model

| member | source | states |
|---|---|---|
| Os.HostConstants | src/main.rs:12-27 | The three host families have pairwise different `NDK_OS` names; exactly the Windows family has the `.cmd` driver suffix and the `.exe` tool suffix, and it is the family without signals. |
| Os.Concat | src/main.rs:84-87 | Appending OS strings appends their renderings, and the result is UTF-8 exactly when both parts are. |
| Os.Push | src/main.rs:40-44 | A component that starts with a separator replaces the path it is pushed onto. |
| Os.PushExtends | src/main.rs:40-44 | Any other component gives the path, then the main separator unless the path is empty or already ends with a separator, then the component; the result is UTF-8 exactly when both are. |
| Os.PushUtf8 | src/main.rs:107-115 | A pushed path is UTF-8 exactly when the component is and, unless the component replaced it, so is the path. |
| Os.PushAllAppend | src/main.rs:40-44 | Pushing one list of components and then another is the same as pushing the concatenated list. |
| Os.PushAllRootedLast | src/main.rs:57-60 | When the last component pushed starts with a separator, the result is that component, whatever came before. |
| Os.PushAllExtends | src/main.rs:40-44 | A path built by pushing components none of which starts with a separator starts with the original path and, when components were pushed, ends with the last one. |
| Os.PushAllText | src/main.rs:40-44 | A UTF-8 root plus components that are non-empty and neither start nor end with a separator gives the root, the main separator unless the root is empty or already ends with a separator, and the components joined by the main separator. |
| Os.PushAllUtf8 | src/main.rs:107-115 | A path built from components none of which starts with a separator is UTF-8 exactly when the root and every component are. |
| Text.ContainsAt | src/main.rs:180 | `contains` holds exactly when the needle occurs at some position of the string. |
| Text.Trim | src/main.rs:129 | The result has no whitespace at either end, and a string with none is returned unchanged. |
| Text.TrimAvoids | src/main.rs:129 | Trimming never introduces a character that was not in the string. |
| Text.Split | src/main.rs:124 | There is always at least one piece, and no piece contains the separator. |
| Text.JoinSplit | src/main.rs:124 | Joining the pieces of a split with the same separator gives back the original string. |
| Text.SplitJoin | src/main.rs:142 | Splitting a join of separator-free pieces gives back exactly those pieces, including empty ones. |
| Text.SplitAtSep | src/main.rs:124 | A separator splits a string into the pieces on its left followed by the pieces on its right. |
| Text.JoinAppend | src/main.rs:135-142 | Joining two non-empty lists puts exactly one separator between the two joins. |
| Text.ToAsciiUppercaseShape | src/main.rs:34 | ASCII lower-case letters become upper-case, and every other character is kept. |
| Text.ReplaceCharShape | src/main.rs:34 | Every occurrence of the old character is replaced, no occurrence remains, and every other character is kept. |
| ArgScan.FindTargetMatchesSpec | src/main.rs:150-172 | The scan loop returns exactly the reference result. Only the first argument that is not inert decides, and for a bare `--target` so does the argument after it. |
| ArgScan.ScanArgs | src/main.rs:150-172 | The loop as written, with its flag and early exits, returns the reference result. |
| ArgScan.FirstDecisive | src/main.rs:153-171 | The position returned is preceded only by inert arguments and, unless it is the end, holds a non-inert one. |
| ArgScan.InertPrefixSkipped | src/main.rs:153-171 | Arguments that neither are `--target` nor start with `--target=` do not change the outcome. |
| ArgScan.FirstTargetEqWins | src/main.rs:168-171 | `--target=X` yields X, and whatever follows is ignored, later `--target` flags included. |
| ArgScan.BareTargetTakesNext | src/main.rs:163-167 | A bare `--target` takes the next argument as its value, even when that argument looks like a flag. |
| ArgScan.TrailingBareTarget | src/main.rs:163-172 | A bare `--target` as the last argument yields no target. |
| ArgScan.NonUtf8TargetValueRejected | src/main.rs:154-157 | A non-UTF-8 value after a bare `--target` is an error. So is a non-UTF-8 argument whose lossy form starts with `--target=`. |
| ArgScan.NonUtf8Skipped | src/main.rs:154-160 | With no bare `--target` pending, a non-UTF-8 argument whose lossy form does not start with `--target=` is skipped: the outcome is that of the remaining arguments. |
| ArgScan.NoTargetIff | src/main.rs:150-172 | No target is found exactly when every argument is inert, or when all but a final bare `--target` are. |
| ApiLevel.FormatDecimal | src/main.rs:79 | The decimal form of a number is non-empty, all digits, and has no leading zero. |
| ApiLevel.DecimalValueOfFormat | src/main.rs:79 | Reading back the decimal form of a number gives the number. |
| ApiLevel.ParseFormatRoundTrip | src/main.rs:79 | Every API level, as printed into the compiler-driver name, parses back as `u8` to itself. |
| ApiLevel.ParseU8 | src/main.rs:54 | An accepted string is ASCII digits after at most one `+`, and their decimal value is the result. One accepted without a `+` sign or a leading zero is exactly the shortest decimal form of that value. |
| ApiLevel.FormatOfCanonical | src/main.rs:79 | A digit string without a leading zero is the shortest decimal form of its value. |
| ApiLevel.ParseU8Variants | src/main.rs:54 | `u8` parsing accepts one leading `+` and leading zeros. It rejects a leading `-`, the empty string and a lone `+`. |
| ApiLevel.MaxApi | src/main.rs:62-70 | The result is missing exactly when no entry parses as `u8`. Otherwise it is named by some entry and is at least every parseable entry; unparseable entries are ignored. |
| ApiLevel.ChooseApi | src/main.rs:52-71 | A set `ANDROID_API` must be UTF-8 and parse as `u8`, giving its value, or it is an error. Otherwise the library directory must be listable and give a maximum, or the matching error is returned. |
| ApiLevel.OverrideWins | src/main.rs:52-56 | With `ANDROID_API` set, the filesystem and the library directory do not affect the choice. |
| RustFlags.PlainTokens | src/main.rs:126-132 | Every token of `RUSTFLAGS` is non-empty, trimmed and free of spaces. |
| RustFlags.CleanAvoidsSpace | src/main.rs:126-132 | Trimming and dropping empty pieces never introduces a space. |
| RustFlags.CleanKeepsTokens | src/main.rs:126-132 | Tokens that are already clean pass through unchanged. |
| RustFlags.CleanAppend | src/main.rs:128-130 | Trimming and dropping empty pieces works piece by piece: cleaning a concatenation is concatenating the cleaned parts. |
| RustFlags.PlainTokensAtSpace | src/main.rs:126-132 | The tokens of a value with a space in it are the tokens before that space followed by the tokens after it, whatever other spaces either side holds. |
| RustFlags.PlainTokensNoSpace | src/main.rs:126-132 | A value without spaces gives its trimmed self as the one token, or no token when it trims to nothing. |
| RustFlags.PlainTokensEmpty | src/main.rs:126-132 | An empty value gives no tokens. |
| RustFlags.PlainTokensLeadSpace | src/main.rs:126-132 | A leading space adds no token. |
| RustFlags.PlainTokensExtraSpaces | src/main.rs:126-132 | Leading and doubled spaces produce no empty tokens: a space, a token, two spaces and a token give exactly the two tokens. |
| RustFlags.PlainTokensRoundTrip | src/main.rs:126-132 | Clean tokens joined with single spaces tokenize back to themselves. |
| RustFlags.ExistingFlags | src/main.rs:123-133 | A UTF-8 encoded variable splits into at least one piece whose join is that variable. Otherwise a UTF-8 `RUSTFLAGS` gives exactly its tokens, which are clean, and no such variable gives no flags. |
| RustFlags.PlainFlagsRoundTrip | src/main.rs:126-132 | Without the encoded variable, clean tokens written into `RUSTFLAGS` with single spaces are the existing flags, in order. |
| RustFlags.MergedFlags | src/main.rs:135-142 | The merged value is the existing flags joined, one `\x1f`, then the four new tokens joined; only the new tokens when there were no flags. |
| RustFlags.MergedKeepsEncoded | src/main.rs:123-143 | With the encoded variable set, the merged value is that value verbatim, then one `\x1f`, then the four new tokens joined. |
| RustFlags.MergedDecodes | src/main.rs:117-143 | Decoding the merged value gives the existing flags in order, followed by exactly `-L`, the runtime directory, `-l` and the builtins library. |
| RustFlags.EncodedTakesPrecedence | src/main.rs:123-125 | With the encoded variable set, `RUSTFLAGS` has no effect. |
| AndroidEnv.NdkTarget | src/main.rs:35-38 | Exactly the two 32-bit ARM aliases are renamed, and both to `armv7a-linux-androideabi`. |
| AndroidEnv.NdkTargetNormalises | src/main.rs:35-38 | Renaming is idempotent. |
| AndroidEnv.UpperTarget | src/main.rs:34 | The upper form is as long as the target and contains no `-`. |
| AndroidEnv.UpperTargetShape | src/main.rs:34 | The upper form keeps the length. It maps each lower-case ASCII letter to its upper-case letter and each `-` to `_`, keeps every other character, has no `-` and no lower-case ASCII letter, and is a fixed point. |
| AndroidEnv.KeysDistinct | src/main.rs:82-91 | The four target-scoped names are pairwise different, and none is `CARGO_ENCODED_RUSTFLAGS`. |
| AndroidEnv.ProducedKeysCount | src/main.rs:82-143 | There are four produced names, or five for `x86_64-linux-android`. |
| AndroidEnv.ClangRuntimeDir | src/main.rs:96-115 | An unlistable `lib/clang` is an error. On success, the first entry exists and the runtime directory is `<lib/clang>/<first entry>/lib/linux`, as text. |
| AndroidEnv.ClangRuntimeDirOutcomes | src/main.rs:100-115 | An empty listing means a missing version, and a failed first entry means an unreadable directory. Otherwise the result is text exactly when the version name is UTF-8 and so is the toolchain path, unless the name starts with a separator; it is an invalid-UTF-8 error when not. |
| AndroidEnv.ClangRuntimeDirUnderToolchain | src/main.rs:107-110 | When the listing yields file names, the runtime directory starts with the toolchain directory and ends in `linux`. |
| AndroidEnv.BaseVars | src/main.rs:81-92 | Exactly the four target-scoped names are set. `CC` and the linker share the compiler-driver path, `AR` is the archiver, and bindgen gets `--sysroot=` followed by the sysroot. |
| AndroidEnv.Resolve | src/main.rs:30-71 | The checks run in order: NDK root set, toolchain directory exists, API level chosen. The first failure is the result. |
| AndroidEnv.AndroidVars | src/main.rs:94-146 | This succeeds exactly when the target is not x86-64 or the runtime directory resolves. The names are the produced set, and x86-64 gets the merged flags. |
| AndroidEnv.GetAndroidEnv | src/main.rs:29-147 | An unset NDK root is the first error. A map is produced only when resolution and the variables both succeed, and its names are the produced set. |
| AndroidEnv.AndroidEnvAllOrNothing | src/main.rs:30-115 | A map is produced exactly when the NDK root is set, the toolchain exists, an API level is chosen and, for x86-64, the runtime directory resolves. |
| AndroidEnv.AndroidEnvKeys | src/main.rs:81-143 | The map has four entries, or five, and contains `CARGO_ENCODED_RUSTFLAGS` exactly for `x86_64-linux-android`. |
| AndroidEnv.ToolchainUnderNdk | src/main.rs:40-44 | The toolchain directory starts with the NDK root, and is UTF-8 exactly when the root is. |
| AndroidEnv.SysrootUnderToolchain | src/main.rs:50 | The sysroot starts with the toolchain directory and ends in `sysroot`. |
| AndroidEnv.LibDirPlacement | src/main.rs:57-60 | A target that starts with a separator becomes the library directory itself. Any other target gives a directory under the toolchain that ends with the target. |
| AndroidEnv.ArPathPlacement | src/main.rs:73-75 | The archiver lies under the toolchain directory and ends with `llvm-ar<exe>`. |
| AndroidEnv.ClangNameComponent | src/main.rs:79 | The driver name starts with a separator exactly when the target does. Otherwise it is a plain component. |
| AndroidEnv.ClangPathPlacement | src/main.rs:77-79 | A target that starts with a separator makes the driver path the driver name alone. Any other target gives a driver under the toolchain that ends with the driver name. |
| AndroidEnv.RootedTargetEscapes | src/main.rs:57-79 | A target that starts with a separator, such as a target-specification path, is not renamed. The library directory and the driver then lie wherever the target says, not under the NDK. |
| AndroidEnv.ToolPathsUnderNdk | src/main.rs:73-88 | For a target that does not start with a separator, the driver, the archiver and the bindgen sysroot all start under the NDK root, and the tool paths end with the tool names. |
| AndroidEnv.ToolPathsText | src/main.rs:73-79 | For a UTF-8 NDK root and a target that does not start with a separator, the driver is `<ndk>/toolchains/llvm/prebuilt/<os>-x86_64/bin/<ndk_target><api>-clang<suffix>` and the archiver is `<...>/bin/llvm-ar<exe>`, with the host's main separator. No separator follows an empty root or one that already ends with a separator. |
| AndroidEnv.AndroidVarsValues | src/main.rs:81-143 | Adding the flags variable leaves the four base values unchanged. |
| AndroidEnv.AndroidEnvValues | src/main.rs:40-92 | The toolchain is under the NDK root and the API level is the one chosen. `CC` and the linker name the driver for the normalised triple, `AR` is `llvm-ar`, and bindgen gets the sysroot. |
| AndroidEnv.AndroidEnvRustFlags | src/main.rs:94-143 | On x86-64, the flags variable is the merge of the existing flags with the runtime directory. When the listing yields file names, that directory lies under the NDK root. |
| AndroidEnv.RuntimeDirUnderNdk | src/main.rs:107-110 | When the listing yields file names, the runtime directory starts with the NDK root. |
| AndroidEnv.ArmAliasesShareDriver | src/main.rs:77-83 | Both ARM aliases get the `armv7a-linux-androideabi` driver under their own `CC_<t>` name. |
| Launcher.ForwardedArgs | src/main.rs:153 | The wrapper's own path and the sub-command are dropped, and the rest is kept in order. |
| Launcher.Prepare | src/main.rs:174-183 | After a successful scan a missing `CARGO` is the error; a launch runs the program `CARGO` names, with the forwarded arguments. |
| Launcher.ChildEnv | src/main.rs:181 | The child sees the parent's variables with the added ones on top: added names take their new values, and every other name keeps its old one. |
| Launcher.IsAndroid | src/main.rs:179-180 | A target is Android exactly when one was found and `android` occurs somewhere in it. |
| Launcher.MainWrapper | src/main.rs:149-189 | A preparation error is the result whatever the child would do. A status is returned exactly when preparation succeeded and the child ran to completion, and it is the child's. A failed spawn or wait gives its own error. |
| Launcher.ExitCode | src/main.rs:191-206 | The child's own code is passed through; else a signal N gives 128 + N where the host has signals; else 255. |
| Launcher.Main | src/main.rs:208-217 | Any wrapper error gives 255. Otherwise the exit code comes from the child's status. |
| Launcher.ScanErrorFirst | src/main.rs:153-174 | A scan error wins over everything checked later. |
| Launcher.NonAndroidAddsNothing | src/main.rs:174-183 | Without an Android target no variable is added, and the NDK settings and the filesystem do not matter. |
| Launcher.AndroidGating | src/main.rs:179-183 | Variables are added exactly when the target contains `android`, and then they are the whole of the resolved map. |
| Launcher.AndroidFailureBlocksSpawn | src/main.rs:179-183 | A failed Android resolution is the wrapper's error, so the exit code is 255 whatever the child would have done. |
| Launcher.MainExitCodes | src/main.rs:185-215 | A preparation, spawn or wait failure gives 255. Only a child that ran to completion passes its status on. |
| Launcher.SignalCodesDistinct | src/main.rs:196-205 | On a host with signals, two signalled statuses give the same code exactly when they carry the same signal. On Windows both give 255. |
| Launcher.ExitCodeExamples | src/main.rs:191-206 | Exit 42 gives 42. Signal 9 gives 137 on Linux and 255 on Windows. |

## Left out

- Spawning the child, waiting for it and inheriting stdio are reduced to an input `ChildOutcome`: a spawn failure, a wait failure, or a status.
- The real environment, `exists()` and `read_dir()` are inputs: a map, a set of paths, and listings in a given order. The order of `lib/clang` is whatever that input says.
- Error messages and their `{:?}` formatting: errors are kinds, not text.
- For a non-UTF-8 OS string only its lossy rendering is kept. Two ill-formed strings with the same rendering are therefore the same value.
- Os.Push: Windows drive, UNC and verbatim prefixes are not modelled. On Windows a prefixed component also replaces the path, and a component that starts with a separator keeps the path's drive. The model replaces the whole path for a component that starts with a separator and appends any other.
- Launcher.ChildEnv: on Windows, environment names compare case-insensitively, so an added `cc_<t>` would replace a parent's `CC_<t>`, and Os.VarOs would find `android_ndk_root`. The model compares names exactly on every host.
- AndroidEnv.ToolPathsUnderNdk: states a target that does not start with a separator. A target that does is covered by AndroidEnv.RootedTargetEscapes; its tools do not lie under the NDK.
- AndroidEnv.ToolPathsText: states a target that does not start with a separator, for the same reason.
- AndroidEnv.ClangRuntimeDirUnderToolchain: assumes the listing yields file names (`Fs.FileNames`), as `read_dir` does. A listed name that starts with a separator would replace the path; AndroidEnv.ClangRuntimeDirOutcomes still covers that case.
- `process::exit` hands the code to the operating system, which may truncate it. The model stops at the `i32` the wrapper computes.
- Launcher.ExitCode: signal numbers are taken as 0 to 127, as Unix reports them, so `128 + N` never overflows; the `i32` signal accessor's full range is not modelled.
- RustFlags.MergedDecodes: it requires that no existing `RUSTFLAGS` token and not the runtime directory contain `\x1f`. Such a token is still written out, but it does not decode back to itself.
- Conditional compilation is replaced by the `Host` parameter.
