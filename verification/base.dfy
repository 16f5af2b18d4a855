/** Failure-compatible wrappers shared by every module, and the kinds of error
    the wrapper can report. The program renders each error as a message; the
    model keeps only which error it was. */
module Base {

  datatype Option<+T> = None | Some(value: T)

  /** Every reason `main_wrapper` can give up. */
  datatype Error =
    | InvalidUtf8Arg        // a `--target` value that is not valid UTF-8
    | CargoNotSet           // `CARGO` is absent from the environment
    | NdkRootNotSet         // `ANDROID_NDK_ROOT` is absent
    | ToolchainDirNotFound  // the prebuilt LLVM toolchain directory does not exist
    | InvalidApi            // `ANDROID_API` is not valid UTF-8 or not a `u8`
    | LibDirUnreadable      // the sysroot library directory cannot be listed
    | NoApiLevels           // no entry of that directory is a `u8`
    | ClangDirUnreadable    // `lib/clang` cannot be listed, or its first entry fails
    | MissingClangVersion   // `lib/clang` is empty
    | InvalidUtf8Path       // the clang runtime directory is not valid UTF-8
    | SpawnFailed           // the build driver could not be started
    | WaitFailed            // waiting for the build driver failed

  datatype Result<+T> = Ok(value: T) | Err(error: Error) {

    predicate IsFailure() {
      Err?
    }

    function PropagateFailure<U>(): Result<U>
      requires Err?
    {
      Err(error)
    }

    function Extract(): T
      requires Ok?
    {
      value
    }
  }
}
