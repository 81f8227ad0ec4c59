/**
 * The native-library naming rules of the build tooling: from a target platform, a CPU
 * architecture and a .NET version to the runtime directory name, the native library's file
 * name, the target framework moniker (TFM), the .NET runtime identifier (RID) and the staging
 * path of the library below the bindings project.
 *
 * Paths are sequences of components; `join` is appending one. The roots that come from the
 * build environment are left out, so paths here are relative to the project root.
 */
module NativePaths {
  import opened Wrappers

  datatype Platform = Windows | Android | Ios | Osx

  datatype Arch = X64 | Arm64

  datatype DotNetVersion = Net8 | Net10

  /** The version used when none is given on the command line. */
  const DEFAULT_DOTNET_VERSION: DotNetVersion := Net10

  /** The command-line and directory name of a platform. */
  function PlatformName(p: Platform): (s: string)
    ensures |s| == 3 || |s| == 7
  {
    match p
    case Windows => "win"
    case Android => "android"
    case Ios => "ios"
    case Osx => "osx"
  }

  /** The name of an architecture. */
  function ArchName(a: Arch): (s: string)
    ensures 3 <= |s| <= 5 && '-' !in s
  {
    match a
    case X64 => "x64"
    case Arm64 => "arm64"
  }

  /** The framework name of a .NET version. */
  function VersionName(v: DotNetVersion): (s: string)
    ensures |s| >= 6 && s[..3] == "net" && s[|s| - 2..] == ".0"
  {
    match v
    case Net8 => "net8.0"
    case Net10 => "net10.0"
  }

  /** Distinct values have distinct names. */
  lemma NamesInjective(p: Platform, q: Platform, a: Arch, b: Arch, v: DotNetVersion, w: DotNetVersion)
    ensures PlatformName(p) == PlatformName(q) <==> p == q
    ensures ArchName(a) == ArchName(b) <==> a == b
    ensures VersionName(v) == VersionName(w) <==> v == w
  {
    if PlatformName(p) == PlatformName(q) {
      assert PlatformName(p)[0] == PlatformName(q)[0];
      assert |PlatformName(p)| == |PlatformName(q)|;
    }
    if ArchName(a) == ArchName(b) {
      assert |ArchName(a)| == |ArchName(b)|;
    }
    if VersionName(v) == VersionName(w) {
      assert |VersionName(v)| == |VersionName(w)|;
    }
  }

  /** Building for iOS or Mac Catalyst needs a macOS host. */
  predicate RequiresMacos(p: Platform)
  {
    p.Ios? || p.Osx?
  }

  /** Building for Windows needs a Windows host. */
  predicate RequiresWindows(p: Platform)
  {
    p.Windows?
  }

  /** No platform needs both hosts, and Android needs neither. */
  lemma HostRequirements(p: Platform)
    ensures !(RequiresMacos(p) && RequiresWindows(p))
    ensures !RequiresMacos(p) && !RequiresWindows(p) <==> p == Android
    ensures RequiresMacos(p) || RequiresWindows(p) || p == Android
  {
    match p
    case Windows =>
    case Android =>
    case Ios =>
    case Osx =>
  }

  /** The runtime directory name `{platform}-{arch}`. */
  function RuntimeDirName(p: Platform, a: Arch): (s: string)
    ensures |s| == |PlatformName(p)| + 1 + |ArchName(a)| && s[0] == PlatformName(p)[0]
  {
    PlatformName(p) + "-" + ArchName(a)
  }

  /** The directory name is the platform name, a '-', then the architecture name. */
  lemma RuntimeDirNameParts(p: Platform, a: Arch)
    ensures var s, n := RuntimeDirName(p, a), |PlatformName(p)|;
            && s[..n] == PlatformName(p) && s[n] == '-' && s[n + 1..] == ArchName(a)
  {
  }

  /** The runtime directory name determines the platform and the architecture. */
  lemma RuntimeDirNameInjective(p: Platform, a: Arch, q: Platform, b: Arch)
    ensures RuntimeDirName(p, a) == RuntimeDirName(q, b) <==> p == q && a == b
  {
    if RuntimeDirName(p, a) == RuntimeDirName(q, b) {
      // the lengths 7, 9, 11 and 13 tell the architecture and whether the platform is
      // Android; the first character tells the other platforms apart
      assert |PlatformName(p)| == |PlatformName(q)| && |ArchName(a)| == |ArchName(b)|;
      assert PlatformName(p)[0] == PlatformName(q)[0];
    }
  }

  /** The crate's output name. */
  const NATIVE_LIB_STEM: string := "rust_fractal"

  /** The file-name prefix of a shared library: none on Windows, "lib" elsewhere. */
  function NativeLibPrefix(p: Platform): (s: string)
    ensures s == "" <==> p == Windows
    ensures |s| == if p == Windows then 0 else 3
  {
    match p
    case Windows => ""
    case Android | Ios | Osx => "lib"
  }

  /** The file-name extension of a shared library. */
  function NativeLibExt(p: Platform): (s: string)
    ensures s == "dylib" <==> RequiresMacos(p)
    ensures |s| == match p case Windows => 3 case Android => 2 case _ => 5
  {
    match p
    case Windows => "dll"
    case Android => "so"
    case Osx | Ios => "dylib"
  }

  /** The library's file name `{prefix}{stem}.{ext}`. */
  function NativeLibFilename(p: Platform): (s: string)
  {
    NativeLibPrefix(p) + NATIVE_LIB_STEM + "." + NativeLibExt(p)
  }

  /** The concrete file names. */
  lemma NativeLibFilenames()
    ensures NativeLibFilename(Windows) == "rust_fractal.dll"
    ensures NativeLibFilename(Android) == "librust_fractal.so"
    ensures NativeLibFilename(Osx) == "librust_fractal.dylib"
    ensures NativeLibFilename(Ios) == "librust_fractal.dylib"
  {
    assert NativeLibFilename(Windows) == "" + "rust_fractal" + "." + "dll";
    assert NativeLibFilename(Android) == "lib" + "rust_fractal" + "." + "so";
    assert NativeLibFilename(Osx) == "lib" + "rust_fractal" + "." + "dylib";
  }

  /** Two platforms share the file name exactly when they use the same kind of library. */
  lemma NativeLibFilenameByExt(p: Platform, q: Platform)
    ensures NativeLibFilename(p) == NativeLibFilename(q) <==> NativeLibExt(p) == NativeLibExt(q)
  {
    if NativeLibFilename(p) == NativeLibFilename(q) {
      // the lengths are 16, 18 and 21 for the three kinds
      assert |NativeLibExt(p)| == |NativeLibExt(q)|;
    }
  }

  /** The platform part of a target framework moniker. */
  function TfmSuffix(p: Platform): (s: string)
    ensures |s| > 0 && s[0] == '-'
    ensures |s| == match p case Android => 8 case Ios => 4 case Osx => 12 case Windows => 20
  {
    match p
    case Android => "-android"
    case Ios => "-ios"
    case Osx => "-maccatalyst"
    case Windows => "-windows10.0.19041.0"
  }

  /** The target framework moniker: the version's framework name, then the platform's part,
      with Windows pinned to the minimum version 10.0.19041.0. */
  function DotnetTfm(v: DotNetVersion, p: Platform): (s: string)
    ensures |s| == |VersionName(v)| + |TfmSuffix(p)|
  {
    VersionName(v) + TfmSuffix(p)
  }

  /** The moniker starts with the version's framework name and ends with the platform part. */
  lemma DotnetTfmParts(v: DotNetVersion, p: Platform)
    ensures var s, n := DotnetTfm(v, p), |VersionName(v)|;
            s[..n] == VersionName(v) && s[n..] == TfmSuffix(p)
  {
  }

  /** The Windows monikers, pinned to Windows 10.0.19041.0. */
  lemma DotnetTfms()
    ensures DotnetTfm(Net10, Windows) == "net10.0-windows10.0.19041.0"
    ensures DotnetTfm(Net8, Windows) == "net8.0-windows10.0.19041.0"
  {
    assert DotnetTfm(Net10, Windows) == "net10.0" + "-windows10.0.19041.0";
    assert DotnetTfm(Net8, Windows) == "net8.0" + "-windows10.0.19041.0";
  }

  /** Desktop macOS is targeted through Mac Catalyst. */
  lemma DotnetTfmsMacos()
    ensures DotnetTfm(Net10, Osx) == "net10.0-maccatalyst"
    ensures DotnetTfm(Net8, Osx) == "net8.0-maccatalyst"
  {
    assert DotnetTfm(Net10, Osx) == "net10.0" + "-maccatalyst";
    assert DotnetTfm(Net8, Osx) == "net8.0" + "-maccatalyst";
  }

  /** The iOS monikers. */
  lemma DotnetTfmsIos()
    ensures DotnetTfm(Net10, Ios) == "net10.0-ios"
    ensures DotnetTfm(Net8, Ios) == "net8.0-ios"
  {
    assert DotnetTfm(Net10, Ios) == "net10.0" + "-ios";
    assert DotnetTfm(Net8, Ios) == "net8.0" + "-ios";
  }

  /** The Android monikers. */
  lemma DotnetTfmsAndroid()
    ensures DotnetTfm(Net10, Android) == "net10.0-android"
    ensures DotnetTfm(Net8, Android) == "net8.0-android"
  {
    assert DotnetTfm(Net10, Android) == "net10.0" + "-android";
    assert DotnetTfm(Net8, Android) == "net8.0" + "-android";
  }

  /** Distinct (version, platform) pairs have distinct monikers. */
  lemma DotnetTfmInjective(v: DotNetVersion, p: Platform, w: DotNetVersion, q: Platform)
    ensures DotnetTfm(v, p) == DotnetTfm(w, q) <==> v == w && p == q
  {
    if DotnetTfm(v, p) == DotnetTfm(w, q) {
      var s := DotnetTfm(v, p);
      // the character after "net" is '8' for .NET 8 and '1' for .NET 10
      assert s[3] == VersionName(v)[3] && s[3] == VersionName(w)[3];
      assert v == w;
      assert TfmSuffix(p) == s[|VersionName(v)|..] == TfmSuffix(q) by {
        assert s == VersionName(v) + TfmSuffix(p) == VersionName(v) + TfmSuffix(q);
      }
      // the suffixes differ in length
      assert |TfmSuffix(p)| == |TfmSuffix(q)|;
    }
  }

  /** The .NET runtime identifier; iOS has none for x64 (the tooling aborts). Mac Catalyst
      RIDs replace the "osx" directory name. */
  function DotnetRid(p: Platform, a: Arch): (r: Option<string>)
    ensures r.None? <==> p == Ios && a == X64
  {
    match (p, a)
    case (Windows, X64) => Some("win-x64")
    case (Windows, Arm64) => Some("win-arm64")
    case (Android, Arm64) => Some("android-arm64")
    case (Android, X64) => Some("android-x64")
    case (Osx, Arm64) => Some("maccatalyst-arm64")
    case (Osx, X64) => Some("maccatalyst-x64")
    case (Ios, Arm64) => Some("ios-arm64")
    case _ => None
  }

  /** A RID, where there is one, is the runtime directory name, except that macOS becomes
      Mac Catalyst. */
  lemma RidVersusRuntimeDir(p: Platform, a: Arch)
    ensures p != Osx && DotnetRid(p, a).Some? ==> DotnetRid(p, a).value == RuntimeDirName(p, a)
    ensures DotnetRid(Osx, a) == Some("maccatalyst-" + ArchName(a))
    ensures DotnetRid(Osx, a).value != RuntimeDirName(Osx, a)
  {
    assert RuntimeDirName(Osx, a)[0] == 'o';
    match a {
      case X64 => assert "maccatalyst-" + ArchName(a) == "maccatalyst-x64";
      case Arm64 => assert "maccatalyst-" + ArchName(a) == "maccatalyst-arm64";
    }
    match (p, a)
    case (Windows, X64) => assert RuntimeDirName(p, a) == "win-x64";
    case (Windows, Arm64) => assert RuntimeDirName(p, a) == "win-arm64";
    case (Android, Arm64) => assert RuntimeDirName(p, a) == "android-arm64";
    case (Android, X64) => assert RuntimeDirName(p, a) == "android-x64";
    case (Ios, Arm64) => assert RuntimeDirName(p, a) == "ios-arm64";
    case _ =>
  }

  /** Distinct pairs that have a RID have distinct RIDs. */
  lemma RidInjective(p: Platform, a: Arch, q: Platform, b: Arch)
    ensures DotnetRid(p, a).Some? && DotnetRid(p, a) == DotnetRid(q, b) ==> p == q && a == b
  {
    if DotnetRid(p, a).Some? && DotnetRid(p, a) == DotnetRid(q, b) {
      // the RIDs of equal length differ in their first character
      var s, t := DotnetRid(p, a).value, DotnetRid(q, b).value;
      assert |s| == |t| && s[0] == t[0];
    }
  }

  /** Paths as their components, relative to the project root. */
  type Path = seq<string>

  /** `path.join(name)` for a single component: the path one level further down. */
  function Join(path: Path, name: string): (r: Path)
    ensures |r| == |path| + 1 && r[..|path|] == path && r[|path|] == name
  {
    path + [name]
  }

  /** The Rust library's root, holding its Cargo manifest. */
  function RustFractalRoot(): (r: Path)
    ensures r == ["rust_fractal"]
  {
    Join([], "rust_fractal")
  }

  /** The C# bindings project below the Rust library's NuGet directory. */
  function BindingsRoot(): (r: Path)
    ensures |r| == 3 && r[..1] == RustFractalRoot()
  {
    Join(Join(RustFractalRoot(), "nuget"), "RustFractals")
  }

  /** Where the native binaries are staged. */
  function BindingsRuntimeDir(): (r: Path)
  {
    Join(BindingsRoot(), "runtimes")
  }

  /** The staging path of the native library for a platform and architecture. */
  function DestinationNativeLibPath(p: Platform, a: Arch): (r: Path)
  {
    Join(Join(Join(BindingsRuntimeDir(), RuntimeDirName(p, a)), "native"), NativeLibFilename(p))
  }

  /** Below the bindings project the staging path is runtimes / {platform}-{arch} / native /
      file name. */
  lemma DestinationLayout(p: Platform, a: Arch)
    ensures var r := DestinationNativeLibPath(p, a);
            && |r| == 7 && r[..3] == BindingsRoot()
            && r[3] == "runtimes" && r[4] == RuntimeDirName(p, a)
            && r[5] == "native" && r[6] == NativeLibFilename(p)
  {
    var d := BindingsRuntimeDir();
    var r4 := Join(d, RuntimeDirName(p, a));
    var r5 := Join(r4, "native");
    var r := Join(r5, NativeLibFilename(p));
    assert r[..6] == r5 && r5[..5] == r4 && r4[..4] == d && d[..3] == BindingsRoot();
    assert r[..3] == r5[..3] == r4[..3] == d[..3];
  }

  /** Each (platform, architecture) pair has its own staging path. */
  lemma DestinationInjective(p: Platform, a: Arch, q: Platform, b: Arch)
    ensures DestinationNativeLibPath(p, a) == DestinationNativeLibPath(q, b) <==> p == q && a == b
  {
    if DestinationNativeLibPath(p, a) == DestinationNativeLibPath(q, b) {
      DestinationLayout(p, a);
      DestinationLayout(q, b);
      RuntimeDirNameInjective(p, a, q, b);
    }
  }
}
