/** The slice of the operating system that the build touches: a filesystem
    seen as a map from path to node, the io::Error values it reports, and the
    log of processes launched. */
module Io {

  newtype byte = b: int | 0 <= b < 256

  /** Paths and OS strings are character sequences; no encoding is modelled. */
  type Path = string

  datatype Option<+T> = None | Some(value: T)

  /** The io::ErrorKind values this program can produce or pass on. */
  datatype ErrorKind = NotFound | AlreadyExists | IsADirectory | Other

  /** An io::Error: either reported by the operating system (an errno mapped
      to a kind) or built by the program with a kind and a message. */
  datatype IoError =
    | Os(kind: ErrorKind)
    | Custom(kind: ErrorKind, message: string)

  /** io::Result<T>. */
  datatype Result<+T> = Ok(value: T) | Err(error: IoError)

  /** A directory entry: a regular file with its bytes, or a directory. */
  datatype Node = File(data: seq<byte>) | Directory

  type Files = map<Path, Node>

  /** Path::is_file: the path exists and is a regular file. */
  predicate IsRegularFile(files: Files, p: Path) {
    p in files && files[p].File?
  }

  /** File::open followed by reading the whole file, as io::copy does:
      opening a missing path fails with NotFound; a directory opens but
      reading it fails with IsADirectory. */
  function ReadAll(files: Files, p: Path): (r: Result<seq<byte>>)
    ensures r.Ok? <==> IsRegularFile(files, p)
    ensures r.Ok? ==> r.value == files[p].data
    ensures r.Err? ==> r.error.Os? && (r.error.kind == NotFound <==> p !in files)
  {
    if p !in files then Err(Os(NotFound))
    else match files[p]
      case File(d) => Ok(d)
      case Directory => Err(Os(IsADirectory))
  }

  /** fs::remove_file: unlinks a regular file; a missing path or a directory
      is an error and leaves the filesystem as it was. */
  function Unlink(files: Files, p: Path): (r: (Result<()>, Files))
    ensures r.0.Ok? <==> IsRegularFile(files, p)
    ensures r.0.Ok? ==> p !in r.1 && r.1.Keys == files.Keys - {p}
    ensures r.0.Err? ==> r.1 == files
    ensures forall q :: q != p && q in files ==> q in r.1 && r.1[q] == files[q]
  {
    if p !in files then (Err(Os(NotFound)), files)
    else match files[p]
      case File(_) => (Ok(()), files - {p})
      case Directory => (Err(Os(IsADirectory)), files)
  }

  /** The machine the program runs on: its filesystem, and the argument
      vectors of every process it has tried to launch, oldest first. */
  class Host {
    var files: Files
    var launched: seq<seq<string>>

    constructor (initial: Files)
      ensures files == initial && launched == []
    {
      files := initial;
      launched := [];
    }

    /** Creates an empty file at a path nobody uses yet
        (NamedTempFile::new on the name the library picked). */
    method CreateEmpty(p: Path)
      requires p !in files
      modifies this
      ensures files == old(files)[p := File([])]
      ensures launched == old(launched)
    {
      files := files[p := File([])];
    }

    /** Appends bytes to the end of a regular file. */
    method Append(p: Path, data: seq<byte>)
      requires IsRegularFile(files, p)
      modifies this
      ensures files == old(files)[p := File(old(files)[p].data + data)]
      ensures launched == old(launched)
    {
      files := files[p := File(files[p].data + data)];
    }

    /** fs::remove_file. */
    method RemoveFile(p: Path) returns (r: Result<()>)
      modifies this
      ensures (r, files) == Unlink(old(files), p)
      ensures launched == old(launched)
    {
      var u := Unlink(files, p);
      r, files := u.0, u.1;
    }

    /** Records an attempt to launch a process with the given argument vector. */
    method Launch(argv: seq<string>)
      modifies this
      ensures launched == old(launched) + [argv]
      ensures files == old(files)
    {
      launched := launched + [argv];
    }

    /** A child process leaves a regular file with the given bytes at p. */
    method Deposit(p: Path, data: seq<byte>)
      modifies this
      ensures files == old(files)[p := File(data)]
      ensures launched == old(launched)
    {
      files := files[p := File(data)];
    }
  }
}
