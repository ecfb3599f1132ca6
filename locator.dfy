/** How a font locator string is turned into a byte stream (getFontInputStream):
    the order of the strategies is the whole content of this module. */
module Locator {
  import opened Base

  /** The four ways the locator can be opened. */
  datatype Strategy =
    | FromFile(path: string)
    | FromUrl(url: string)
    | FromStdin
    | FromResource(name: string)

  /** The file system and the font registry as far as the resolution consults them:
      File.exists, File.canRead, and FontFactory's isRegistered/getFontPath
      (a registered name has a path, an unregistered one has none). */
  datatype FileSystem = FileSystem(
    fileExists: string -> bool,
    canRead: string -> bool,
    registeredPath: string -> Option<string>)

  /** String.startsWith. */
  predicate StartsWith(s: string, prefix: string)
  {
    |prefix| <= |s| && s[..|prefix|] == prefix
  }

  /** The prefixes that make a locator a URL. */
  predicate HasUrlPrefix(s: string)
  {
    StartsWith(s, "file:/") || StartsWith(s, "http://") || StartsWith(s, "https://")
    || StartsWith(s, "jar:") || StartsWith(s, "wsjar:")
  }

  /** The name the strategies are tried on: the registered path of a name
      that is registered and does not exist as a file, else the name itself. */
  function EffectiveLocator(name: string, fs: FileSystem): (n: string)
    ensures n != name ==> !fs.fileExists(name) && fs.registeredPath(name) == Some(n)
    ensures fs.fileExists(name) || fs.registeredPath(name).None? ==> n == name
    ensures !fs.fileExists(name) && fs.registeredPath(name).Some? ==> n == fs.registeredPath(name).value
  {
    if !fs.fileExists(name) && fs.registeredPath(name).Some? then fs.registeredPath(name).value else name
  }

  /** The strategy getFontInputStream picks, checked in order on the effective locator:
      readable file, URL prefix, exactly "-", packaged resource. */
  function ChooseStrategy(name: string, fs: FileSystem): (s: Strategy)
    ensures var n := EffectiveLocator(name, fs);
      && (s.FromFile? <==> fs.canRead(n))
      && (s.FromUrl? <==> !fs.canRead(n) && HasUrlPrefix(n))
      && (s.FromStdin? <==> !fs.canRead(n) && !HasUrlPrefix(n) && n == "-")
      && (s.FromResource? <==> !fs.canRead(n) && !HasUrlPrefix(n) && n != "-")
      && (s.FromFile? ==> s.path == n)
      && (s.FromUrl? ==> s.url == n)
      && (s.FromResource? ==> s.name == n)
  {
    var n := EffectiveLocator(name, fs);
    if fs.canRead(n) then FromFile(n)
    else if HasUrlPrefix(n) then FromUrl(n)
    else if n == "-" then FromStdin
    else FromResource(n)
  }

  /** getFontInputStream: open the chosen strategy with `open` (Files.newInputStream,
      URL.openStream, System.in, BaseFont.getResourceStream). A resource or a
      standard input that yields null is "not found", named by the effective
      locator; a file or URL open that throws is an I/O failure. */
  function GetFontInputStream(name: string, fs: FileSystem, open: Strategy -> Option<seq<bv8>>)
    : (r: Result<seq<bv8>>)
    ensures r.Success? <==> open(ChooseStrategy(name, fs)).Some?
    ensures r.Success? ==> r.value == open(ChooseStrategy(name, fs)).value
    ensures r.Failure? && (ChooseStrategy(name, fs).FromResource? || ChooseStrategy(name, fs).FromStdin?) ==>
      r.error == NotFound(EffectiveLocator(name, fs))
    ensures r.Failure? && (ChooseStrategy(name, fs).FromFile? || ChooseStrategy(name, fs).FromUrl?) ==>
      r.error == OpenFailed(EffectiveLocator(name, fs))
  {
    var strategy := ChooseStrategy(name, fs);
    match open(strategy)
    case Some(bytes) => Success(bytes)
    case None => if strategy.FromResource? || strategy.FromStdin? then Failure(NotFound(EffectiveLocator(name, fs)))
                 else Failure(OpenFailed(EffectiveLocator(name, fs)))
  }

  /** A readable file always wins, even over a name that looks like a URL or "-". */
  lemma ReadableFileWins(name: string, fs: FileSystem)
    requires fs.fileExists(name) && fs.canRead(name)
    ensures ChooseStrategy(name, fs) == FromFile(name)
  {
  }

  /** No URL prefix is "-", so every locator that is not a readable file and is
      exactly "-" reaches standard input: the URL check cannot shadow it. */
  lemma StdinReachable(fs: FileSystem)
    requires !fs.canRead(EffectiveLocator("-", fs))
    requires EffectiveLocator("-", fs) == "-"
    ensures ChooseStrategy("-", fs) == FromStdin
  {
  }

  /** A registered name is rewritten only when no such file exists; an existing
      file of that name is used as given, whatever the registry says. */
  lemma RegistryOnlyForMissingFiles(name: string, path: string, fs: FileSystem)
    requires fs.registeredPath(name) == Some(path)
    ensures EffectiveLocator(name, fs) == (if fs.fileExists(name) then name else path)
  {
  }
}
