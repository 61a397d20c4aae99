# sigen, modelled in Dafny

sigen builds a standalone UEFI executable from a Linux kernel image, a
kernel command-line file and any number of initramfs images. It checks that
the systemd-boot EFI stub, `objcopy` and the kernel are there, concatenates
the initramfs images into a temporary file, clears the output path (or
refuses to, without `-f`), then runs `objcopy` once to copy the stub and add
five sections at fixed addresses: `.osrel` (the os-release file, 0x20000),
`.cmdline` (0x30000), `.splash` (`/dev/null`, 0x40000), `.linux` (the kernel,
0x2000000) and `.initrd` (the combined initramfs, 0x3000000). If `objcopy`
succeeds, the combined file is removed. Otherwise the run fails: with the
launch error when `objcopy` could not be started, with an error carrying the
exit code when it exited non-zero, or with a fixed "terminated by signal"
error when it was killed.

The model is built in layers:

- `Io` (io.dfy) is the host. It holds the filesystem as a map from path to
  node (a regular file with its bytes, or a directory). It also keeps a log
  of the processes the program tried to launch. `File::open` + `io::copy`,
  `fs::remove_file`, `Path::is_file` and `Path::exists` are pure functions
  over the map. The class `Host` has the mutating methods: create the
  temporary file, append to it, remove a file, launch a process, and a
  process leaving a file behind.
- `Merge` (merge.dfy) specifies the combining loop. It proves that the
  result is the byte-exact concatenation of the inputs in order, and that
  the first unreadable input decides the error.
- `Objcopy` (objcopy.dfy) holds the stub path, the argument vector for
  `objcopy`, how `objcopy` reads that vector back, the fixed section layout,
  and the mapping from exit status to error. `Decimal` (decimal.dfy) renders
  the exit code as `format!` does.
- `Sigen` (sigen.dfy) holds `main`. `Sigen.Run` is an imperative method on
  the `Host`. It runs the checks, then `Sigen.WriteCombined` (the merge
  `while` loop and its invariants), then `Sigen.ClearAndBuild` (the output
  slot, objcopy and the cleanup). It is proved to end with exactly the
  result, filesystem and launch log that the specification function
  `Sigen.Pipeline` gives.
- `SigenProperties` (properties.dfy) proves what a run guarantees, stated
  about `Pipeline`.

External collaborators are inputs of type `Sigen.Env`, fixed before the run:

- the status of `objcopy -V`;
- what `NamedTempFile::new` returns (a fresh name, or an error);
- the status of the build command;
- the bytes `objcopy` leaves at the output path.

A process status is `SpawnFailed(error) | Exited(code) | Signalled`.
`ExitStatus::success` is `Exited(0)`.

What sigen does on its failure paths:

- sigen neither backs up nor signs the output.
- The combined file is kept (`keep()`) before the output check. So it stays
  behind when the output already exists, when removing the output fails,
  and when `objcopy` fails or cannot be started. Only on success is it
  removed, and that removal's result is the program's result.
- An unreadable initramfs input ends the run with the operating system's own
  error, not an error built with the path. When `File::open` fails, the path
  is printed to standard error first; when the read inside `io::copy` fails
  (a directory, say), the path is not printed at all.
- Before the combined file is kept, an early return drops the
  `NamedTempFile` handle and the library deletes the file. The model
  includes this deletion, so a failed merge leaves the filesystem as it was.

## Model

| member | source | states |
|---|---|---|
| `Io.ReadAll` | src/main.rs:84-91 | Opening and copying an input succeeds exactly for a regular file and yields its bytes. A missing path gives NotFound; a directory opens but its read fails with another OS error |
| `Io.Unlink` | src/main.rs:103 | `remove_file` succeeds exactly on a regular file and removes only that path. On a missing path or a directory it fails and changes nothing |
| `Io.Host.CreateEmpty` | src/main.rs:81 | The temporary file is created empty at its fresh name. Nothing else changes |
| `Io.Host.Append` | src/main.rs:86 | Copying appends the input's bytes to the end of the temporary file. Nothing else changes |
| `Io.Host.RemoveFile` | src/main.rs:162 | The host's filesystem and the returned result are those of `Unlink` |
| `Io.Host.Launch` | src/main.rs:69 | Launching a process appends its argument vector to the launch log and changes no file |
| `Io.Host.Deposit` | src/main.rs:158 | objcopy leaves a regular file with the given bytes at the output path, and touches nothing else |
| `Decimal.NatToString` | src/main.rs:167 | An exit code's magnitude is rendered as a non-empty string of decimal digits with no leading zero |
| `Decimal.IntToString` | src/main.rs:167 | A code is rendered with a leading minus sign exactly when it is negative |
| `Decimal.IntToStringRoundTrip` | src/main.rs:167 | Parsing the rendered code gives back the exact code |
| `Decimal.IntToStringInjective` | src/main.rs:167 | Different exit codes give different messages |
| `Objcopy.BuildArgs` | src/main.rs:115-156 | The objcopy argv has exactly 22 entries. Entries 4g..4g+3 are the `--add-section name=source --change-section-vma name=vma` group of the g-th section. Then come the stub path and the output path |
| `Objcopy.BuildCommand` | src/main.rs:127-156 | The build command is `objcopy` followed by 22 arguments. The `.cmdline`, `.linux` and `.initrd` sources are the given paths, and the stub and the output come last |
| `Objcopy.BuildArgsDecode` | src/main.rs:127-156 | Reading the argv the way objcopy does (groups of four, each `name=value` split at its first `=`) gives exactly the five sections, the stub as input and the requested output |
| `Objcopy.SectionLayout` | src/main.rs:128-153 | The sections are `.osrel`, `.cmdline`, `.splash`, `.linux`, `.initrd`, in that order, at 0x20000, 0x30000, 0x40000, 0x2000000 and 0x3000000. These addresses increase strictly and do not depend on the inputs. `.cmdline`, `.linux` and `.initrd` take the cmdline path, the kernel path and the combined file's path |
| `Objcopy.Code` | src/main.rs:160-164 | A started process has no exit code exactly when it was killed by a signal, and it succeeded exactly when its code is 0 |
| `Objcopy.StatusError` | src/main.rs:164-176 | A spawn error is passed on unchanged; any other unsuccessful status becomes a program-built Other error with a non-empty message |
| `Objcopy.StatusErrorCases` | src/main.rs:158-177 | A spawn error is returned unchanged. A non-zero exit gives an Other error whose message is the fixed prefix followed by the exact code. A signal gives an Other error that differs from every exit-code error |
| `Merge.MergeInputs` | src/main.rs:83-92 | The copy loop succeeds exactly when every input is a regular file; every error it returns is the operating system's own, not one built by the program |
| `Merge.MergeSucceeds` | src/main.rs:81-93 | Merging succeeds exactly when every input is a regular file. The result is then the inputs' contents concatenated in list order, and its length is the sum of their lengths |
| `Merge.MergeFirstFailure` | src/main.rs:83-92 | The merge fails with the error of the first input that is not a regular file. NotFound means the input is missing. Later inputs play no part |
| `Merge.MergePrefixFailure` | src/main.rs:83-92 | Once a prefix of the inputs fails, the whole loop returns that same error |
| `Sigen.ClearOutput` | src/main.rs:101-110 | Output-slot policy. The build may continue exactly when the output is absent, or is a regular file and `-f` is given; the output is then gone and nothing else changed. Without `-f` an existing output gives AlreadyExists. A failure changes nothing |
| `Sigen.Assemble` | src/main.rs:158-177 | After the slot is cleared, objcopy has been probed and launched with the build command. The run ends Ok only if objcopy succeeded, and then the combined file is gone. If objcopy succeeded and the combined file is on disk, the result is Ok. On every other status the run fails and the combined file keeps its bytes |
| `Sigen.Pipeline` | src/main.rs:59-178 | At most two processes are launched, the probe always first. The build command is launched exactly when the stub, the probe, the kernel, the temporary file and every input are fine and the output slot can be cleared. An Ok run launched the build and objcopy succeeded |
| `Sigen.WriteCombined` | src/main.rs:81-93 | The copy loop leaves the temporary file holding exactly what `MergeInputs` gives. If an input fails, its error is returned and the temporary file is deleted again, so the filesystem is as it was |
| `Sigen.ClearAndBuild` | src/main.rs:101-177 | After the combined file is kept, the host ends as `ClearOutput` says when the slot cannot be cleared, and as `Assemble` says otherwise. Only the build command is added to the launch log |
| `Sigen.Run` | src/main.rs:59-178 | Running `main` on the host yields the result, the filesystem and the launch log given by `Pipeline` for the initial filesystem |
| `SigenProperties.PreflightOrder` | src/main.rs:62-76 | A missing stub fails with NotFound before anything is launched. A probe that cannot be launched fails next. A missing kernel fails with NotFound after the probe. No check changes the filesystem |
| `SigenProperties.ProbeStatusIgnored` | src/main.rs:69 | The exit status of `objcopy -V` has no effect on the run. Only a failure to launch it does |
| `SigenProperties.NoMutationBeforeMerge` | src/main.rs:62-93 | If a check, the temporary file or an input fails, the run fails with the filesystem unchanged and objcopy at most probed |
| `SigenProperties.MergeFailure` | src/main.rs:83-92 | The first unreadable input's error is the run's result. The filesystem is unchanged, the output is untouched and the build command is never launched |
| `SigenProperties.MergedPayload` | src/main.rs:81-99 | The combined file holds the ordered concatenation of the inputs, with the summed length, and is empty for no inputs. Its path is objcopy's `.initrd` source. It is removed exactly when the run succeeds, and stays with those bytes on every later failure |
| `SigenProperties.OutputExistsRefused` | src/main.rs:101-110 | An existing output without `-f` fails with AlreadyExists. The output's bytes are unchanged, objcopy is never invoked, and the combined file is left on disk |
| `SigenProperties.OutputDirectoryNotRemoved` | src/main.rs:101-104 | Under `-f`, an output that is a directory cannot be removed. That error ends the run before objcopy |
| `SigenProperties.OutputSlotCleared` | src/main.rs:101-158 | When the slot is free, objcopy is launched once with the 22-argument vector. The output is present afterwards exactly when objcopy was started and wrote it, and then it holds objcopy's bytes. Every other path except the combined file is unchanged |
| `SigenProperties.ExitStatusOutcome` | src/main.rs:158-177 | Success removes the combined file and returns Ok, and the output objcopy wrote stays in place. A non-zero exit or a signal returns its error, and a spawn error is returned unchanged. In all three failure cases the combined file stays on disk |

## Left out

- Command-line parsing (structopt/paw): `Args` is a plain record.
- Console output. The flushes at src/main.rs lines 79 and 113 can fail and
  end the run with that error (at line 113 after an existing output was
  already removed under `-f`); these error exits, and the panics of
  `print!`/`println!` when writing to standard output fails (lines 60, 78,
  95, 112 and 161, the last one after objcopy succeeded and before the
  combined file is removed), are not modelled.
- The x86 (32-bit) stub path: only the x86_64 constant is modelled.
- `sync_all` and `keep`: both are treated as always succeeding. The
  combined file simply stays at its path with the same bytes.
- Write errors while appending to the temporary file, such as a full disk:
  `io::copy` can fail only on the read side.
- Read errors on inputs: only a missing path (NotFound) and a directory are
  modelled. Permission errors are not.
- Symbolic links are not modelled (the source's `exists` and `is_file` follow them; `remove_file` does not).
- The name `NamedTempFile::new` picks is an input. It is assumed not to be on
  disk, not to be one of the `--initrd` inputs and not to be the output
  path, which the library's random names make so in practice. The
  `--cmdline` path may name it.
- What objcopy does to the PE/COFF stub: the output's bytes are an input.
  objcopy is assumed to write nothing but the output path.
- Whether objcopy wrote an output is an input of its own, independent of its
  exit status: an exit 0 with nothing written ends the run Ok without an
  output, as it does in sigen, which does not check. The success clause of
  `SigenProperties.ExitStatusOutcome` about the output therefore holds when
  objcopy did write it.
- Concurrent changes to the filesystem during a run.
- `OsString` encoding: paths are character sequences.
