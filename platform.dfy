/** The Platform Resolver: the host's (OS, architecture) pair and the names
    derived from it, the release asset to fetch and the executable to run. */
module Platform {

  datatype Os = Mac | Linux | Windows

  datatype Architecture = Aarch64 | X8664 | X86

  /** Prefix of every asset, version directory and stale cache entry. */
  const BinaryName: string := "mcp-relay"

  /** OS token used in asset names. */
  function OsToken(os: Os): (token: string)
    ensures token == "darwin" <==> os == Mac
    ensures token == "linux" <==> os == Linux
    ensures token == "windows" <==> os == Windows
  {
    match os
    case Mac => "darwin"
    case Linux => "linux"
    case Windows => "windows"
  }

  /** Architecture token used in asset names; 32-bit x86 has no build of its
      own and is served the x86_64 one. */
  function ArchToken(arch: Architecture): (token: string)
    ensures token == "aarch64" <==> arch == Aarch64
    ensures token == "x86_64" <==> arch != Aarch64
  {
    match arch
    case Aarch64 => "aarch64"
    case X8664 | X86 => "x86_64"
  }

  /** Name of the release asset built for the platform. */
  function AssetName(os: Os, arch: Architecture): (name: string)
    ensures BinaryName + "-" <= name && name[|name| - 7..] == ".tar.gz"
    ensures |name| == |BinaryName| + |OsToken(os)| + |ArchToken(arch)| + 9
  {
    BinaryName + "-" + OsToken(os) + "-" + ArchToken(arch) + ".tar.gz"
  }

  /** File name of the executable inside the unpacked archive. */
  function ExecutableName(os: Os): (exe: string)
    ensures exe == "mcp_relay.exe" <==> os == Windows
    ensures exe == "mcp_relay" <==> os != Windows
  {
    if os == Windows then "mcp_relay.exe" else "mcp_relay"
  }

  /** Two platforms ask for the same asset exactly when they share the OS and
      both or neither run on aarch64: distinct builds never collide, and the
      two x86 architectures share one. */
  lemma AssetNameInjective(os1: Os, arch1: Architecture, os2: Os, arch2: Architecture)
    ensures AssetName(os1, arch1) == AssetName(os2, arch2)
            <==> os1 == os2 && (arch1 == Aarch64 <==> arch2 == Aarch64)
  {
    var n1, n2 := AssetName(os1, arch1), AssetName(os2, arch2);
    if n1 == n2 {
      // the first character after "mcp-relay-" tells the OS tokens apart
      assert n1[10] == OsToken(os1)[0];
      assert n2[10] == OsToken(os2)[0];
      assert os1 == os2;
      // with the OS fixed, the lengths tell the architecture tokens apart
      assert |ArchToken(arch1)| == |ArchToken(arch2)|;
    }
  }
}
