/** sigen's `main`: preflight checks, the combined initramfs, the output
    slot, the objcopy invocation and the cleanup of the combined file, as a
    method over the host's filesystem, proved equal to the specification
    `Pipeline`. */
module Sigen {
  import opened Io
  import opened Objcopy
  import opened Merge

  /** The command line: kernel image, command-line file, output, the
      initramfs files in the order given, and `-f`/`--force`. */
  datatype Args = Args(kernel: Path, cmdline: Path, output: Path, initrd: seq<Path>, overwrite: bool)

  /** What the world answers, fixed in advance: the status of the
      `objcopy -V` probe, what NamedTempFile::new yields (the fresh name it
      picked, or its error), the status of the build command, and the bytes
      objcopy leaves at the output path once it has started (None: it
      creates nothing there). */
  datatype Env = Env(probe: Status, tempFile: Result<Path>, build: Status, written: Option<seq<byte>>)

  /** The temporary file gets a name that is not on disk and that no
      argument names. */
  predicate TempNameFree(files: Files, args: Args, env: Env) {
    env.tempFile.Ok? ==>
      var t := env.tempFile.value;
      t !in files && t !in args.initrd && t != args.output
  }

  /** How a run ends: the value `main` returns, the filesystem afterwards,
      and the argument vectors of the processes it tried to launch. */
  datatype Outcome = Outcome(result: Result<()>, files: Files, launched: seq<seq<string>>)

  function StubNotFound(): (e: IoError) {
    Custom(NotFound, "Failed to find stub " + STUB_PATH)
  }

  function KernelNotFound(kernel: Path): (e: IoError) {
    Custom(NotFound, "Failed to find kernel image " + kernel)
  }

  const OUTPUT_EXISTS: IoError := Custom(AlreadyExists, "Output file already exists, pass -f to overwrite")

  /** The output-slot policy: a missing output is left alone; an existing
      one is removed under `--force` and refused otherwise. Only the output
      path can change, and only when the policy lets the build go on. */
  function ClearOutput(files: Files, output: Path, overwrite: bool): (r: (Result<()>, Files))
    ensures r.0.Ok? <==> output !in files || (overwrite && IsRegularFile(files, output))
    ensures r.0.Ok? ==> output !in r.1 && r.1 == files - {output}
    ensures r.0.Err? ==> r.1 == files
    ensures output in files && !overwrite ==> r.0 == Err(OUTPUT_EXISTS)
    ensures output in files && overwrite && !IsRegularFile(files, output) ==> r.0 == Err(Os(IsADirectory))
  {
    if output in files then
      if overwrite then Unlink(files, output)
      else (Err(OUTPUT_EXISTS), files)
    else (Ok(()), files)
  }

  /** The filesystem after a child process has left `written` at p. */
  function Deposited(files: Files, p: Path, written: Option<seq<byte>>): (after: Files) {
    if written.Some? then files[p := File(written.value)] else files
  }

  /** Runs objcopy on the cleared slot and interprets its status; the
      combined file t is removed only when objcopy succeeded. */
  function Assemble(files: Files, args: Args, env: Env, t: Path): (o: Outcome)
    ensures o.launched == [PROBE, BuildCommand(args.cmdline, args.kernel, t, args.output)]
    ensures o.result.Ok? ==> Succeeded(env.build) && t !in o.files
    ensures Succeeded(env.build) && t != args.output && IsRegularFile(files, t) ==> o.result.Ok?
    ensures !Succeeded(env.build) && t != args.output && t in files ==>
      o.result.Err? && t in o.files && o.files[t] == files[t]
  {
    var launched := [PROBE, BuildCommand(args.cmdline, args.kernel, t, args.output)];
    if env.build.SpawnFailed? then Outcome(Err(env.build.error), files, launched)
    else
      var after := Deposited(files, args.output, env.written);
      if Succeeded(env.build) then
        var removed := Unlink(after, t);
        Outcome(removed.0, removed.1, launched)
      else Outcome(Err(StatusError(env.build)), after, launched)
  }

  /** The whole run, step by step; every step stops the run on its first error. */
  function Pipeline(files: Files, args: Args, env: Env): (o: Outcome)
    requires TempNameFree(files, args, env)
    ensures |o.launched| <= 2 && (o.launched != [] ==> o.launched[0] == PROBE)
    ensures |o.launched| == 2 <==>
      IsRegularFile(files, STUB_PATH) && !env.probe.SpawnFailed? && IsRegularFile(files, args.kernel)
      && env.tempFile.Ok? && AllRegular(files, args.initrd)
      && ClearOutput(files, args.output, args.overwrite).0.Ok?
    ensures o.result.Ok? ==> |o.launched| == 2 && Succeeded(env.build)
  {
    if !IsRegularFile(files, STUB_PATH) then Outcome(Err(StubNotFound()), files, [])
    else if env.probe.SpawnFailed? then Outcome(Err(env.probe.error), files, [PROBE])
    else if !IsRegularFile(files, args.kernel) then Outcome(Err(KernelNotFound(args.kernel)), files, [PROBE])
    else if env.tempFile.Err? then Outcome(Err(env.tempFile.error), files, [PROBE])
    else
      var t := env.tempFile.value;
      match MergeInputs(files, args.initrd)
      case Err(e) => Outcome(Err(e), files, [PROBE])
      case Ok(merged) =>
        var kept := files[t := File(merged)];
        var slot := ClearOutput(kept, args.output, args.overwrite);
        if slot.0.Err? then Outcome(slot.0, kept, [PROBE])
        else Assemble(slot.1, args, env, t)
  }

  /** `main`, step by step on the host. */
  method Run(host: Host, args: Args, env: Env) returns (r: Result<()>)
    requires TempNameFree(host.files, args, env)
    modifies host
    ensures var o := Pipeline(old(host.files), args, env);
      r == o.result && host.files == o.files && host.launched == old(host.launched) + o.launched
  {
    if !IsRegularFile(host.files, STUB_PATH) {
      return Err(StubNotFound());
    }
    host.Launch(PROBE);
    if env.probe.SpawnFailed? {
      return Err(env.probe.error);
    }
    if !IsRegularFile(host.files, args.kernel) {
      return Err(KernelNotFound(args.kernel));
    }

    if env.tempFile.Err? {
      return Err(env.tempFile.error);
    }
    var temp := env.tempFile.value;
    var merged := WriteCombined(host, args.initrd, temp);
    if merged.Err? {
      return merged;
    }
    // sync_all and keep: the file stays at `temp` with the same bytes
    r := ClearAndBuild(host, args, env, temp);
  }

  /** Creates the temporary file and copies every input into it in order.
      On the first input that cannot be read, the handle is dropped, which
      deletes the file, and that input's error is returned. */
  method WriteCombined(host: Host, paths: seq<Path>, temp: Path) returns (r: Result<()>)
    requires temp !in host.files && temp !in paths
    modifies host
    ensures host.launched == old(host.launched)
    ensures var m := MergeInputs(old(host.files), paths);
      if m.Ok? then r == Ok(()) && host.files == old(host.files)[temp := File(m.value)]
      else r == Err(m.error) && host.files == old(host.files)
  {
    ghost var files0 := host.files;
    host.CreateEmpty(temp);
    var i := 0;
    while i < |paths|
      invariant 0 <= i <= |paths|
      invariant host.launched == old(host.launched)
      invariant MergeInputs(files0, paths[..i]).Ok?
      invariant host.files == files0[temp := File(MergeInputs(files0, paths[..i]).value)]
    {
      var path := paths[i];
      assert paths[..i + 1][..i] == paths[..i];
      var read := ReadAll(host.files, path);
      assert read == ReadAll(files0, path);
      if read.Err? {
        // the temporary file is deleted when its handle is dropped
        var dropped := host.RemoveFile(temp);
        assert host.files == files0;
        MergePrefixFailure(files0, paths, i + 1);
        return Err(read.error);
      }
      host.Append(temp, read.value);
      i := i + 1;
    }
    assert paths[..i] == paths;
    r := Ok(());
  }

  /** The steps after the combined file is kept: clear the output slot, run
      objcopy, and remove the combined file if objcopy succeeded. */
  method ClearAndBuild(host: Host, args: Args, env: Env, temp: Path) returns (r: Result<()>)
    modifies host
    ensures var slot := ClearOutput(old(host.files), args.output, args.overwrite);
      if slot.0.Err? then
        r == slot.0 && host.files == old(host.files) && host.launched == old(host.launched)
      else
        var o := Assemble(slot.1, args, env, temp);
        r == o.result && host.files == o.files && host.launched == old(host.launched) + o.launched[1..]
  {
    if args.output in host.files {
      if args.overwrite {
        var removed := host.RemoveFile(args.output);
        if removed.Err? {
          return removed;
        }
      } else {
        return Err(OUTPUT_EXISTS);
      }
    }

    host.Launch(BuildCommand(args.cmdline, args.kernel, temp, args.output));
    var status := env.build;
    if status.SpawnFailed? {
      return Err(status.error);
    }
    if env.written.Some? {
      host.Deposit(args.output, env.written.value);
    }
    if Succeeded(status) {
      r := host.RemoveFile(temp);
    } else {
      r := Err(StatusError(status));
    }
  }
}
