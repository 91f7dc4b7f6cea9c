/** How a client turns its logical endpoint name into the address given to
    `net.connect`: a named pipe on Windows, a Unix-domain socket elsewhere. */
module Addressing {
  import opened Common

  /** The name a client falls back to (`name || "jand"`). */
  const DefaultName: string := "jand"

  /** The Windows pipe namespace, `\\.\pipe\`. */
  const PipePrefix: string := "\\\\.\\pipe\\"

  /** The directory and prefix .NET uses for its Unix-domain sockets. */
  const SocketPrefix: string := "/tmp/CoreFxPipe_"

  /** The client's name: the one given, unless it is missing or empty
      (both are falsy for `||`). */
  function ClientName(given: Option<string>): (name: string)
    ensures name != ""
    ensures given.Some? && given.value != "" ==> name == given.value
    ensures given.None? || given.value == "" ==> name == DefaultName
  {
    if given.Some? && given.value != "" then given.value else DefaultName
  }

  /** `os.platform() === "win32"` */
  predicate IsWindows(platform: string)
  {
    platform == "win32"
  }

  /** A name taken verbatim as an address on this platform. */
  predicate IsVerbatim(platform: string, name: string)
  {
    if IsWindows(platform) then StartsWith(name, "/") || StartsWith(name, "\\")
    else StartsWith(name, "/")
  }

  /** The address `connect` opens for `name` on `platform`. */
  function ResolvePath(platform: string, name: string): (path: string)
    ensures IsVerbatim(platform, name) <==> path == name
    ensures !IsVerbatim(platform, name) && IsWindows(platform) ==>
      StartsWith(path, PipePrefix) && path[|PipePrefix|..] == name
    ensures !IsVerbatim(platform, name) && !IsWindows(platform) ==>
      StartsWith(path, SocketPrefix) && path[|SocketPrefix|..] == name
  {
    if IsWindows(platform) then
      if StartsWith(name, "/") || StartsWith(name, "\\") then name else PipePrefix + name
    else
      if StartsWith(name, "/") then name else SocketPrefix + name
  }

  /** Every resolved address is itself verbatim on its platform: whatever the
      name, the address starts with a path separator. */
  lemma ResolvedIsVerbatim(platform: string, name: string)
    ensures IsVerbatim(platform, ResolvePath(platform, name))
  {
    var path := ResolvePath(platform, name);
    if !IsVerbatim(platform, name) {
      if IsWindows(platform) {
        assert path[..1] == PipePrefix[..1] == "\\";
      } else {
        assert path[..1] == SocketPrefix[..1] == "/";
      }
    }
  }

  /** Resolving an address once more changes nothing, so a client may be
      named by the address another client resolved. */
  lemma ResolveIdempotent(platform: string, name: string)
    ensures ResolvePath(platform, ResolvePath(platform, name)) == ResolvePath(platform, name)
  {
    ResolvedIsVerbatim(platform, name);
  }

  /** On Windows a name and its own pipe address resolve alike: `x` and
      `\\.\pipe\x` open the same pipe. */
  lemma PipeNamesCollide(name: string)
    requires !IsVerbatim("win32", name)
    ensures ResolvePath("win32", PipePrefix + name) == ResolvePath("win32", name)
  {
    assert (PipePrefix + name)[..1] == "\\";
  }

  /** The addresses a default client opens. */
  lemma DefaultAddresses()
    ensures ResolvePath("linux", ClientName(None)) == "/tmp/CoreFxPipe_jand"
    ensures ResolvePath("win32", ClientName(Some(""))) == "\\\\.\\pipe\\jand"
    ensures ResolvePath("linux", "myapp") == "/tmp/CoreFxPipe_myapp"
    ensures ResolvePath("darwin", "/custom/sock") == "/custom/sock"
  {
    assert "jand"[..1] == "j" && "myapp"[..1] == "m";
    assert StartsWith("/custom/sock", "/");
  }
}
