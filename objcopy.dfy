/** The contract with the external `objcopy` tool: the stub it copies, the
    argument vector that embeds the five sections, how objcopy reads that
    vector back, and how its exit status becomes the program's result. */
module Objcopy {
  import opened Io
  import Decimal

  /** The systemd-boot EFI stub for an x86_64 target. */
  const STUB_PATH: string := "/usr/lib/systemd/boot/efi/linuxx64.efi.stub"

  const OBJCOPY: string := "objcopy"

  /** The version probe launched before any input is read. */
  const PROBE: seq<string> := [OBJCOPY, "-V"]

  /** One section to embed: its name, the file its contents come from, and
      its virtual memory address as objcopy's hexadecimal argument. */
  datatype SectionSpec = SectionSpec(name: string, source: string, vma: string)

  /** The five sections in the order they are passed. */
  function Sections(cmdline: Path, kernel: Path, initrd: Path): (ss: seq<SectionSpec>) {
    [ SectionSpec(".osrel", "/etc/os-release", "0x20000"),
      SectionSpec(".cmdline", cmdline, "0x30000"),
      SectionSpec(".splash", "/dev/null", "0x40000"),
      SectionSpec(".linux", kernel, "0x2000000"),
      SectionSpec(".initrd", initrd, "0x3000000") ]
  }

  /** `--add-section name=source --change-section-vma name=vma`. */
  function SectionArgs(s: SectionSpec): (group: seq<string>) {
    ["--add-section", s.name + "=" + s.source, "--change-section-vma", s.name + "=" + s.vma]
  }

  function Flatten(ss: seq<SectionSpec>): (argv: seq<string>)
    ensures |argv| == 4 * |ss|
  {
    if ss == [] then [] else SectionArgs(ss[0]) + Flatten(ss[1..])
  }

  /** The arguments given to objcopy after its name: the five section groups,
      then the stub it copies, then the output it writes. */
  function BuildArgs(cmdline: Path, kernel: Path, initrd: Path, output: Path): (argv: seq<string>)
    ensures |argv| == 22
    ensures argv[20] == STUB_PATH && argv[21] == output
    ensures forall g | 0 <= g < 5 ::
      argv[4 * g .. 4 * g + 4] == SectionArgs(Sections(cmdline, kernel, initrd)[g])
  {
    var ss := Sections(cmdline, kernel, initrd);
    var argv := Flatten(ss) + [STUB_PATH, output];
    FlattenGroups(ss);
    assert forall g | 0 <= g < 5 :: argv[4 * g .. 4 * g + 4] == Flatten(ss)[4 * g .. 4 * g + 4];
    argv
  }

  /** The full argument vector of the build command, program name first. */
  function BuildCommand(cmdline: Path, kernel: Path, initrd: Path, output: Path): (command: seq<string>)
    ensures |command| == 23 && command[0] == OBJCOPY
    ensures command[21] == STUB_PATH && command[22] == output
    ensures command[6] == ".cmdline=" + cmdline && command[14] == ".linux=" + kernel
    ensures command[18] == ".initrd=" + initrd
  {
    var argv := BuildArgs(cmdline, kernel, initrd, output);
    var ss := Sections(cmdline, kernel, initrd);
    assert argv[4 .. 8] == SectionArgs(ss[1]) && argv[5] == argv[4 .. 8][1];
    assert argv[12 .. 16] == SectionArgs(ss[3]) && argv[13] == argv[12 .. 16][1];
    assert argv[16 .. 20] == SectionArgs(ss[4]) && argv[17] == argv[16 .. 20][1];
    [OBJCOPY] + argv
  }

  lemma {:induction false} FlattenGroups(ss: seq<SectionSpec>)
    ensures forall g | 0 <= g < |ss| ::
      Flatten(ss)[4 * g .. 4 * g + 4] == SectionArgs(ss[g])
  {
    if ss != [] {
      FlattenGroups(ss[1..]);
      forall g | 0 <= g < |ss|
        ensures Flatten(ss)[4 * g .. 4 * g + 4] == SectionArgs(ss[g])
      {
        if g > 0 {
          assert Flatten(ss)[4 * g .. 4 * g + 4] == Flatten(ss[1..])[4 * (g - 1) .. 4 * (g - 1) + 4];
        }
      }
    }
  }

  // ---- Reading the vector back, as objcopy does ----

  /** Splits `name=value` at the first '='. */
  function SplitAtEquals(s: string): (r: Option<(string, string)>) {
    if s == [] then None
    else if s[0] == '=' then Some(([], s[1..]))
    else match SplitAtEquals(s[1..])
      case None => None
      case Some(nv) => Some(([s[0]] + nv.0, nv.1))
  }

  lemma {:induction false} SplitAfterName(name: string, value: string)
    requires '=' !in name
    ensures SplitAtEquals(name + "=" + value) == Some((name, value))
  {
    var s := name + "=" + value;
    if name == [] {
      assert s[1..] == value;
    } else {
      assert s[0] == name[0] && s[1..] == name[1..] + "=" + value;
      SplitAfterName(name[1..], value);
      assert [name[0]] + name[1..] == name;
    }
  }

  function DecodeGroup(g: seq<string>): (spec: Option<SectionSpec>)
    requires |g| == 4
  {
    if g[0] != "--add-section" || g[2] != "--change-section-vma" then None
    else match (SplitAtEquals(g[1]), SplitAtEquals(g[3]))
      case (Some(ns), Some(nv)) =>
        if ns.0 == nv.0 then Some(SectionSpec(ns.0, ns.1, nv.1)) else None
      case _ => None
  }

  function DecodeGroups(argv: seq<string>): (ss: Option<seq<SectionSpec>>)
    decreases |argv|
  {
    if argv == [] then Some([])
    else if |argv| < 4 then None
    else match (DecodeGroup(argv[..4]), DecodeGroups(argv[4..]))
      case (Some(s), Some(rest)) => Some([s] + rest)
      case _ => None
  }

  /** What objcopy understands from its arguments: the sections, the input
      and the output file. */
  datatype Invocation = Invocation(sections: seq<SectionSpec>, input: Path, output: Path)

  function DecodeArgs(argv: seq<string>): (inv: Option<Invocation>) {
    if |argv| < 2 then None
    else match DecodeGroups(argv[..|argv| - 2])
      case Some(ss) => Some(Invocation(ss, argv[|argv| - 2], argv[|argv| - 1]))
      case None => None
  }

  lemma {:induction false} DecodeFlatten(ss: seq<SectionSpec>)
    requires forall i | 0 <= i < |ss| :: '=' !in ss[i].name
    ensures DecodeGroups(Flatten(ss)) == Some(ss)
  {
    if ss != [] {
      var argv := Flatten(ss);
      assert argv[..4] == SectionArgs(ss[0]);
      assert argv[4..] == Flatten(ss[1..]);
      SplitAfterName(ss[0].name, ss[0].source);
      SplitAfterName(ss[0].name, ss[0].vma);
      assert DecodeGroup(argv[..4]) == Some(ss[0]);
      DecodeFlatten(ss[1..]);
      assert [ss[0]] + ss[1..] == ss;
    }
  }

  /** objcopy reads the built vector as exactly the five sections, with the
      stub as input and the requested output. */
  lemma BuildArgsDecode(cmdline: Path, kernel: Path, initrd: Path, output: Path)
    ensures DecodeArgs(BuildArgs(cmdline, kernel, initrd, output))
         == Some(Invocation(Sections(cmdline, kernel, initrd), STUB_PATH, output))
  {
    var ss := Sections(cmdline, kernel, initrd);
    var argv := BuildArgs(cmdline, kernel, initrd, output);
    assert argv[..20] == Flatten(ss);
    DecodeFlatten(ss);
  }

  // ---- The fixed section layout ----

  function HexValue(c: char): (v: int) {
    if '0' <= c <= '9' then c as int - '0' as int
    else if 'a' <= c <= 'f' then c as int - 'a' as int + 10
    else -1
  }

  function ParseHexDigits(s: string): (v: int) {
    if s == [] then 0 else ParseHexDigits(s[..|s| - 1]) * 16 + HexValue(s[|s| - 1])
  }

  /** The address objcopy reads from a `0x`-prefixed argument. */
  function VmaValue(vma: string): (v: int) {
    if |vma| >= 2 && vma[..2] == "0x" then ParseHexDigits(vma[2..]) else -1
  }

  /** The sections come in the order .osrel, .cmdline, .splash, .linux,
      .initrd, at the fixed addresses 0x20000, 0x30000, 0x40000, 0x2000000
      and 0x3000000; the addresses do not depend on the inputs, increase
      strictly, and the variable sources are the three given paths. */
  lemma SectionLayout(cmdline: Path, kernel: Path, initrd: Path)
    ensures var ss := Sections(cmdline, kernel, initrd);
      |ss| == 5
      && ss[0].name == ".osrel" && ss[1].name == ".cmdline" && ss[2].name == ".splash"
      && ss[3].name == ".linux" && ss[4].name == ".initrd"
      && ss[1].source == cmdline && ss[3].source == kernel && ss[4].source == initrd
      && VmaValue(ss[0].vma) == 0x20000 && VmaValue(ss[1].vma) == 0x30000
      && VmaValue(ss[2].vma) == 0x40000 && VmaValue(ss[3].vma) == 0x2000000
      && VmaValue(ss[4].vma) == 0x3000000
      && (forall i | 0 < i < 5 :: VmaValue(ss[i - 1].vma) < VmaValue(ss[i].vma))
  {
    HexLeadingDigit("0x20000", '2', 4);
    HexLeadingDigit("0x30000", '3', 4);
    HexLeadingDigit("0x40000", '4', 4);
    HexLeadingDigit("0x2000000", '2', 6);
    HexLeadingDigit("0x3000000", '3', 6);
  }

  function Zeros(k: nat): (s: string) {
    if k == 0 then [] else Zeros(k - 1) + ['0']
  }

  /** The value of the hexadecimal digit v followed by k zero digits. */
  function Shifted(v: int, k: nat): (n: int) {
    if k == 0 then v else 16 * Shifted(v, k - 1)
  }

  lemma {:induction false} ParseHexZeros(d: char, k: nat)
    ensures ParseHexDigits([d] + Zeros(k)) == Shifted(HexValue(d), k)
  {
    if k > 0 {
      var s := [d] + Zeros(k);
      assert s[..|s| - 1] == [d] + Zeros(k - 1) && s[|s| - 1] == '0';
      ParseHexZeros(d, k - 1);
    }
  }

  /** The value of a `0x` argument made of one digit followed by zeros. */
  lemma HexLeadingDigit(vma: string, d: char, k: nat)
    requires vma == "0x" + [d] + Zeros(k)
    ensures VmaValue(vma) == Shifted(HexValue(d), k)
  {
    assert vma[..2] == "0x" && vma[2..] == [d] + Zeros(k);
    ParseHexZeros(d, k);
  }

  // ---- Exit status ----

  /** What Command::status reports: the process could not be started, it
      exited with a code, or it was killed by a signal (no code). */
  datatype Status = SpawnFailed(error: IoError) | Exited(code: int) | Signalled

  /** ExitStatus::success. */
  predicate Succeeded(s: Status) {
    s.Exited? && s.code == 0
  }

  /** ExitStatus::code. */
  function Code(s: Status): (c: Option<int>)
    requires !s.SpawnFailed?
    ensures c.None? <==> s.Signalled?
    ensures Succeeded(s) <==> c == Some(0)
  {
    if s.Exited? then Some(s.code) else None
  }

  const EXIT_PREFIX: string := "objcopy terminated with code "
  const SIGNAL_MESSAGE: string := "objcopy terminated by signal"

  /** The error the build returns when objcopy did not succeed. */
  function StatusError(s: Status): (e: IoError)
    requires !Succeeded(s)
    ensures s.SpawnFailed? ==> e == s.error
    ensures !s.SpawnFailed? ==> e.Custom? && e.kind == Other && e.message != []
  {
    match s
    case SpawnFailed(err) => err
    case _ =>
      match Code(s)
      case Some(c) => Custom(Other, EXIT_PREFIX + Decimal.IntToString(c))
      case None => Custom(Other, SIGNAL_MESSAGE)
  }

  /** A spawn error is passed on unchanged; a non-zero exit gives an Other
      error whose message ends with the exact code; a signal gives an Other
      error whose message differs from every exit-code message. */
  lemma StatusErrorCases(s: Status)
    requires !Succeeded(s)
    ensures s.SpawnFailed? ==> StatusError(s) == s.error
    ensures s.Exited? ==>
      var e := StatusError(s);
      e.Custom? && e.kind == Other
      && |e.message| > |EXIT_PREFIX| && e.message[..|EXIT_PREFIX|] == EXIT_PREFIX
      && Decimal.ParseInt(e.message[|EXIT_PREFIX|..]) == s.code
    ensures s.Signalled? ==>
      StatusError(s) == Custom(Other, SIGNAL_MESSAGE)
      && forall c | c != 0 :: StatusError(s) != StatusError(Exited(c))
  {
    if s.Exited? {
      var e := StatusError(s);
      Decimal.IntToStringRoundTrip(s.code);
      assert e.message[|EXIT_PREFIX|..] == Decimal.IntToString(s.code);
    }
    if s.Signalled? {
      forall c | c != 0 ensures StatusError(s) != StatusError(Exited(c)) {
        assert StatusError(Exited(c)).message[19] == 'w';
      }
    }
  }
}
