/** What a run of sigen guarantees, stated about `Sigen.Pipeline` (and so,
    through `Sigen.Run`'s postcondition, about the program). */
module SigenProperties {
  import opened Io
  import opened Objcopy
  import opened Merge
  import opened Sigen

  /** Every check before the merge passes and the temporary file was created. */
  predicate PreflightPasses(files: Files, args: Args, env: Env) {
    IsRegularFile(files, STUB_PATH) && !env.probe.SpawnFailed?
    && IsRegularFile(files, args.kernel) && env.tempFile.Ok?
  }

  /** The checks run in a fixed order and the first failure wins: a missing
      stub is reported before objcopy is probed, a probe that cannot be
      launched before the kernel is looked at, a missing kernel after both.
      None of them changes the filesystem. */
  lemma PreflightOrder(files: Files, args: Args, env: Env)
    requires TempNameFree(files, args, env)
    ensures var o := Pipeline(files, args, env);
      && (!IsRegularFile(files, STUB_PATH) ==>
            o == Outcome(Err(StubNotFound()), files, []) && StubNotFound().kind == NotFound)
      && (IsRegularFile(files, STUB_PATH) && env.probe.SpawnFailed? ==>
            o == Outcome(Err(env.probe.error), files, [PROBE]))
      && (IsRegularFile(files, STUB_PATH) && !env.probe.SpawnFailed? && !IsRegularFile(files, args.kernel) ==>
            o == Outcome(Err(KernelNotFound(args.kernel)), files, [PROBE])
            && KernelNotFound(args.kernel).kind == NotFound)
  {
  }

  /** Only a probe that cannot be launched stops the run: its exit status,
      whatever it is, changes nothing. */
  lemma ProbeStatusIgnored(files: Files, args: Args, env: Env, s: Status)
    requires TempNameFree(files, args, env)
    requires !s.SpawnFailed? && !env.probe.SpawnFailed?
    ensures Pipeline(files, args, env.(probe := s)) == Pipeline(files, args, env)
  {
  }

  /** Until the combined initramfs exists, nothing on disk changes and
      objcopy is at most probed: a failing check, a failing temporary file or
      an unreadable input leave the filesystem exactly as it was. */
  lemma NoMutationBeforeMerge(files: Files, args: Args, env: Env)
    requires TempNameFree(files, args, env)
    requires !PreflightPasses(files, args, env) || !AllRegular(files, args.initrd)
    ensures var o := Pipeline(files, args, env);
      o.result.Err? && o.files == files && o.launched in {[], [PROBE]}
  {
  }

  /** An input that cannot be opened or read ends the run with that input's
      error: the first such input decides, the ones after it are not read,
      the temporary file is gone again and the output is not touched. */
  lemma MergeFailure(files: Files, args: Args, env: Env, k: nat)
    requires TempNameFree(files, args, env) && PreflightPasses(files, args, env)
    requires k < |args.initrd| && AllRegular(files, args.initrd[..k])
    requires !IsRegularFile(files, args.initrd[k])
    ensures Pipeline(files, args, env)
         == Outcome(Err(ReadAll(files, args.initrd[k]).error), files, [PROBE])
    ensures Pipeline(files, args, env).result.error.kind == NotFound <==> args.initrd[k] !in files
  {
    MergeFirstFailure(files, args.initrd, k);
  }

  /** The combined file: once every input is readable, it holds the inputs'
      bytes concatenated in the order given, as long as all of them
      together (empty for no inputs). objcopy gets its path as the source of
      `.initrd`. It is removed exactly when the run succeeds; on every failure
      from here on it stays on disk with those bytes. */
  lemma MergedPayload(files: Files, args: Args, env: Env)
    requires TempNameFree(files, args, env) && PreflightPasses(files, args, env)
    requires AllRegular(files, args.initrd)
    ensures var o := Pipeline(files, args, env);
      var t := env.tempFile.value;
      var merged := Concat(Contents(files, args.initrd));
      && |merged| == TotalLength(Contents(files, args.initrd))
      && (args.initrd == [] ==> merged == [])
      && (o.result.Ok? <==> t !in o.files)
      && (o.result.Err? ==> o.files[t] == File(merged))
      && (|o.launched| == 2 ==>
            o.launched[1] == BuildCommand(args.cmdline, args.kernel, t, args.output))
  {
    MergeSucceeds(files, args.initrd);
  }

  /** An existing output without `--force`: the run fails with
      AlreadyExists, the output keeps its bytes, objcopy is never invoked,
      and the combined file is left behind. */
  lemma OutputExistsRefused(files: Files, args: Args, env: Env)
    requires TempNameFree(files, args, env) && PreflightPasses(files, args, env)
    requires AllRegular(files, args.initrd)
    requires args.output in files && !args.overwrite
    ensures var o := Pipeline(files, args, env);
      var t := env.tempFile.value;
      && o.result == Err(OUTPUT_EXISTS) && OUTPUT_EXISTS.kind == AlreadyExists
      && o.files == files[t := File(Concat(Contents(files, args.initrd)))]
      && args.output in o.files && o.files[args.output] == files[args.output]
      && o.launched == [PROBE]
  {
    MergeSucceeds(files, args.initrd);
  }

  /** An existing output that is a directory cannot be removed under
      `--force`: the removal's error ends the run before objcopy. */
  lemma OutputDirectoryNotRemoved(files: Files, args: Args, env: Env)
    requires TempNameFree(files, args, env) && PreflightPasses(files, args, env)
    requires AllRegular(files, args.initrd)
    requires args.output in files && files[args.output].Directory? && args.overwrite
    ensures var o := Pipeline(files, args, env);
      && o.result == Err(Os(IsADirectory))
      && o.files == files[env.tempFile.value := File(Concat(Contents(files, args.initrd)))]
      && o.launched == [PROBE]
  {
    MergeSucceeds(files, args.initrd);
  }

  /** When the slot is free (no output, or a regular-file output under
      `--force`), objcopy is invoked once with the 22 arguments. Whatever is
      at the output path afterwards was put there by objcopy (an old output
      was removed before it ran), and whatever objcopy wrote once started is
      there; every path other than the output and the combined file is as
      it was. */
  lemma OutputSlotCleared(files: Files, args: Args, env: Env)
    requires TempNameFree(files, args, env) && PreflightPasses(files, args, env)
    requires AllRegular(files, args.initrd)
    requires args.output !in files || (args.overwrite && IsRegularFile(files, args.output))
    ensures var o := Pipeline(files, args, env);
      var t := env.tempFile.value;
      && o.launched == [PROBE, BuildCommand(args.cmdline, args.kernel, t, args.output)]
      && (args.output in o.files ==>
            !env.build.SpawnFailed? && env.written.Some? && o.files[args.output] == File(env.written.value))
      && (!env.build.SpawnFailed? && env.written.Some? ==>
            args.output in o.files && o.files[args.output] == File(env.written.value))
      && forall p | p != args.output && p != t :: (p in o.files <==> p in files)
                                                && (p in files ==> o.files[p] == files[p])
  {
  }

  /** How objcopy's status ends the run. Success: the combined file is
      removed and that removal's result, Ok, is the result, with the output
      objcopy wrote left in place. A non-zero exit
      code or a signal: the error of `StatusError`, with the combined file
      left on disk. A status that could not be obtained: its error,
      unchanged. */
  lemma ExitStatusOutcome(files: Files, args: Args, env: Env)
    requires TempNameFree(files, args, env) && PreflightPasses(files, args, env)
    requires AllRegular(files, args.initrd)
    requires args.output !in files || (args.overwrite && IsRegularFile(files, args.output))
    ensures var o := Pipeline(files, args, env);
      var t := env.tempFile.value;
      var merged := File(Concat(Contents(files, args.initrd)));
      && (Succeeded(env.build) ==> o.result == Ok(()) && t !in o.files)
      && (Succeeded(env.build) && env.written.Some? ==>
            args.output in o.files && o.files[args.output] == File(env.written.value))
      && (env.build.Exited? && env.build.code != 0 ==>
            o.result == Err(StatusError(env.build)) && t in o.files && o.files[t] == merged)
      && (env.build.Signalled? ==>
            o.result == Err(Custom(Other, SIGNAL_MESSAGE)) && t in o.files && o.files[t] == merged)
      && (env.build.SpawnFailed? ==>
            o.result == Err(env.build.error) && t in o.files && o.files[t] == merged && args.output !in o.files)
  {
    MergeSucceeds(files, args.initrd);
  }
}
