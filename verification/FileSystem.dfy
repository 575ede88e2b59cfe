/** A files-only disk: every path either holds the bytes of one file or nothing. */
module FileSystem {
  import opened Wrappers

  type Bytes = seq<bv8>
  type Path = seq<string>
  type Files = map<Path, Bytes>

  /** What the operating system does during the handling of one file. `parentReady` says whether the
      target's directory is there or can be made; `corrupt` is what a copy
      leaves at its destination when it does not leave the bytes of the source, and `partial` is what a
      copy that fails has written there. */
  datatype Io = Io(
    sameMtime: bool,
    parentReady: bool,
    clears: bool,
    renames: bool,
    copies: bool,
    corrupt: Option<Bytes>,
    partial: Option<Bytes>,
    discards: bool,
    removes: bool)

  function Landed(io: Io, bytes: Bytes): Bytes {
    if io.corrupt.Some? then io.corrupt.value else bytes
  }

  /** The disk after a copy to `target` failed. */
  function Torn(io: Io, fs: Files, target: Path): Files {
    if io.partial.Some? then fs[target := io.partial.value] else fs
  }

  function Renamed(fs: Files, source: Path, target: Path): Files
    requires source in fs
  {
    (fs - {source})[target := fs[source]]
  }

  class Disk {
    var files: Files

    constructor (initial: Files)
      ensures files == initial
    {
      files := initial;
    }

    method Rename(source: Path, target: Path, ok: bool) returns (done: bool)
      modifies this
      ensures done == (ok && source in old(files))
      ensures files == if done then Renamed(old(files), source, target) else old(files)
    {
      done := ok && source in files;
      if done {
        files := Renamed(files, source, target);
      }
    }

    method Copy(source: Path, target: Path, io: Io) returns (done: bool)
      modifies this
      ensures done == (io.copies && source in old(files))
      ensures files == if done then old(files)[target := Landed(io, old(files)[source])]
                       else if source in old(files) then Torn(io, old(files), target) else old(files)
    {
      done := io.copies && source in files;
      if done {
        files := files[target := Landed(io, files[source])];
      } else if source in files && io.partial.Some? {
        files := files[target := io.partial.value];
      }
    }

    method Remove(path: Path, ok: bool) returns (done: bool)
      modifies this
      ensures done == (ok && path in old(files))
      ensures files == if done then old(files) - {path} else old(files)
    {
      done := ok && path in files;
      if done {
        files := files - {path};
      }
    }
  }

  function FileName(path: Path): string
    requires path != []
  {
    path[|path| - 1]
  }

  function Parent(path: Path): Path
    requires path != []
  {
    path[..|path| - 1]
  }

  /** Position of the last dot among the first `from` characters, or the length of the name. */
  function LastDot(name: string, from: nat): (i: nat)
    requires from <= |name|
    ensures i <= |name|
  {
    if from == 0 then |name|
    else if name[from - 1] == '.' then from - 1
    else LastDot(name, from - 1)
  }

  /** Where the extension starts; a name whose only dot is its first character has no extension. */
  function ExtensionStart(name: string): (i: nat)
    ensures i <= |name|
  {
    var dot := LastDot(name, |name|);
    if dot == 0 then |name| else dot
  }

  function Stem(name: string): string {
    name[..ExtensionStart(name)]
  }

  function Extension(name: string): string {
    name[ExtensionStart(name)..]
  }

  function Decimal(n: nat): string
  {
    var digit := ['0' + (n % 10) as char];
    if n < 10 then digit else Decimal(n / 10) + digit
  }

  /** The number a string of digits stands for. */
  function NumberOf(digits: string): int {
    if digits == "" then 0 else NumberOf(digits[..|digits| - 1]) * 10 + (digits[|digits| - 1] as int - '0' as int)
  }

  /** Numbers are printed in decimal digits, and read back. */
  lemma {:induction false} DecimalBack(n: nat)
    ensures NumberOf(Decimal(n)) == n
    ensures Decimal(n) != "" && forall c <- Decimal(n) :: '0' <= c <= '9'
  {
    var digits := Decimal(n);
    if n >= 10 {
      DecimalBack(n / 10);
      assert digits[..|digits| - 1] == Decimal(n / 10);
    } else {
      assert digits[..0] == "";
    }
  }
}
