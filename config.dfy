/**
 * karx/config/secure_config.py: the access gate. A JSON settings file holds
 * the output directory, the SHA-256 hex digest of the access token and the
 * permissions; a missing or unreadable file means the all-denying default.
 * The hash function is a parameter of the gate.
 */
module Config {
  import opened Wrappers
  import opened Storage
  import opened Paths

  /** A `hexdigest()` of SHA-256: 64 characters. */
  type HexDigest = s: string | |s| == 64
    witness "0000000000000000000000000000000000000000000000000000000000000000"

  datatype Permissions = Permissions(canReadFiles: bool, canWriteFiles: bool, canExecuteCommands: bool,
                                     allowedDirectories: seq<string>)

  /** The settings document. Stored values are whatever the file held, so any string may appear. */
  datatype Settings = Settings(outputPath: Option<string>, accessToken: Option<string>,
                               lastModified: string, permissions: Permissions)

  /** How each step of `save_config` goes: creating the directory, writing the file, and the `chmod`. */
  datatype ConfigIo = ConfigIo(dirOk: bool, write: WriteOutcome, chmodOk: bool)

  /** The result of `save_config`, the settings with their refreshed stamp and the file afterwards. */
  datatype Saved = Saved(ok: bool, config: Settings, file: Option<Content<Settings>>)

  /** `_create_default_config`: no output path, no token, every permission off. */
  function DefaultConfig(now: string): (c: Settings)
    ensures c.outputPath.None? && c.accessToken.None? && c.lastModified == now
    ensures !c.permissions.canReadFiles && !c.permissions.canWriteFiles && !c.permissions.canExecuteCommands
    ensures c.permissions.allowedDirectories == []
  {
    Settings(None, None, now, Permissions(false, false, false, []))
  }

  /** `_load_config`: the stored settings when the file decodes, the default otherwise. */
  function LoadConfig(file: Option<Content<Settings>>, now: string): (c: Settings)
    ensures Decoded(file).Some? ==> c == Decoded(file).value
    ensures Decoded(file).None? ==> c == DefaultConfig(now)
  {
    match file
    case Some(Doc(s)) => s
    case _ => DefaultConfig(now)
  }

  /**
   * `save_config`. A failed `mkdir` changes nothing; otherwise the stamp is
   * refreshed in memory and the file is written, and a failed `chmod`
   * reports false although the file has been written.
   */
  function Save(file: Option<Content<Settings>>, c: Settings, now: string, io: ConfigIo): (r: Saved)
    ensures r.ok <==> io.dirOk && io.write.Written? && io.chmodOk
    ensures !io.dirOk ==> r == Saved(false, c, file)
    ensures io.dirOk ==> r.config == c.(lastModified := now)
                         && r.file == Write(file, Doc(r.config), io.write)
  {
    if !io.dirOk then Saved(false, c, file)
    else
      var stamped := c.(lastModified := now);
      Saved(io.write.Written? && io.chmodOk, stamped, Write(file, Doc(stamped), io.write))
  }

  /** What a successful save writes is what the next start loads. */
  lemma SaveThenLoad(file: Option<Content<Settings>>, c: Settings, now: string, io: ConfigIo, later: string)
    requires Save(file, c, now, io).ok
    ensures LoadConfig(Save(file, c, now, io).file, later) == c.(lastModified := now)
  {
  }

  /** A write torn half-way leaves a file that loads as the all-denying default. */
  lemma TornSaveFailsClosed(file: Option<Content<Settings>>, c: Settings, now: string, later: string, chmodOk: bool)
    ensures var s := Save(file, c, now, ConfigIo(true, Torn, chmodOk));
            !s.ok && LoadConfig(s.file, later) == DefaultConfig(later)
  {
  }

  /** `any(abs.is_relative_to(Path(d)) for d in dirs)`. */
  function AllowedUnder(abs: Path, dirs: seq<string>): (r: bool)
    ensures r <==> exists i :: 0 <= i < |dirs| && IsRelativeTo(abs, Parse(dirs[i]))
    ensures dirs == [] ==> !r
  {
    if dirs == [] then false
    else
      var rest := AllowedUnder(abs, dirs[1..]);
      assert forall i :: 1 <= i < |dirs| ==> dirs[i] == dirs[1..][i - 1];
      assert rest ==> exists i :: 1 <= i < |dirs| && IsRelativeTo(abs, Parse(dirs[i]));
      IsRelativeTo(abs, Parse(dirs[0])) || rest
  }

  class SecureConfig {
    /** `hashlib.sha256(t.encode()).hexdigest()`. */
    const sha256: string -> HexDigest
    /** `self.config`. */
    var config: Settings
    /** The settings file on disk. */
    var configFile: Option<Content<Settings>>

    /** `__init__`. */
    constructor(hash: string -> HexDigest, file: Option<Content<Settings>>, now: string)
      ensures sha256 == hash && configFile == file && config == LoadConfig(file, now)
    {
      sha256 := hash;
      configFile := file;
      config := LoadConfig(file, now);
    }

    /** `save_config`, step by step. */
    method SaveConfig(now: string, io: ConfigIo) returns (ok: bool)
      modifies this`config, this`configFile
      ensures Saved(ok, config, configFile) == Save(old(configFile), old(config), now, io)
    {
      if !io.dirOk {
        return false;
      }
      config := config.(lastModified := now);
      configFile := Write(configFile, Doc(config), io.write);
      if !io.write.Written? {
        return false;
      }
      ok := io.chmodOk;
    }

    /** `verify_access`: granted exactly when a token is stored and equals the digest of `token`. */
    function VerifyAccess(token: string): (granted: bool)
      reads this
      ensures config.accessToken.None? || config.accessToken == Some("") ==> !granted
      ensures granted <==> config.accessToken == Some(sha256(token))
    {
      match config.accessToken
      case None => false
      case Some(stored) => stored != "" && sha256(token) == stored
    }

    /** `set_access_token`: only the digest is kept, and it grants access even if the save fails. */
    method SetAccessToken(token: string, now: string, io: ConfigIo) returns (ok: bool)
      modifies this`config, this`configFile
      ensures Saved(ok, config, configFile)
                == Save(old(configFile), old(config).(accessToken := Some(sha256(token))), now, io)
      ensures config.accessToken == Some(sha256(token)) && VerifyAccess(token)
      ensures |token| != 64 ==> config.accessToken != Some(token)
    {
      config := config.(accessToken := Some(sha256(token)));
      ok := SaveConfig(now, io);
    }

    /** `get_output_path`: `None` for a missing or empty path, the parsed path otherwise. */
    function GetOutputPath(): (r: Option<PurePath>)
      reads this
      ensures r.None? <==> config.outputPath.None? || config.outputPath == Some("")
      ensures r.Some? ==> r.value == Parse(config.outputPath.value)
    {
      match config.outputPath
      case None => None
      case Some(s) => if s == "" then None else Some(Parse(s))
    }

    /**
     * `set_output_path`. When creating or restricting the directory fails
     * (`ready` false) nothing changes; otherwise the resolved path is stored
     * and is what `get_output_path` returns, whatever the save reports.
     */
    method SetOutputPath(path: PurePath, cwd: Path, ready: bool, now: string, io: ConfigIo) returns (ok: bool)
      requires Resolved(cwd)
      modifies this`config, this`configFile
      ensures !ready ==> !ok && config == old(config) && configFile == old(configFile)
      ensures ready ==> Saved(ok, config, configFile)
                          == Save(old(configFile), old(config).(outputPath := Some(Format(Resolve(cwd, path)))), now, io)
      ensures ready ==> GetOutputPath() == Some(Resolve(cwd, path))
    {
      if !ready {
        return false;
      }
      var abs := Resolve(cwd, path);
      ParseFormat(abs);
      config := config.(outputPath := Some(Format(abs)));
      ok := SaveConfig(now, io);
    }

    /** `is_path_allowed`: the resolved path is one of the allowed directories or lies below one. */
    function IsPathAllowed(path: PurePath, cwd: Path): (allowed: bool)
      requires Resolved(cwd)
      reads this
      ensures allowed <==> exists i :: 0 <= i < |config.permissions.allowedDirectories|
                                     && IsRelativeTo(Resolve(cwd, path), Parse(config.permissions.allowedDirectories[i]))
      ensures config.permissions.allowedDirectories == [] ==> !allowed
    {
      AllowedUnder(Resolve(cwd, path), config.permissions.allowedDirectories)
    }
  }

  /** The default settings grant no token, no output path and no directory. */
  lemma DefaultDeniesEverything(g: SecureConfig, now: string, token: string, path: PurePath, cwd: Path)
    requires g.config == DefaultConfig(now) && Resolved(cwd)
    ensures !g.VerifyAccess(token) && g.GetOutputPath().None? && !g.IsPathAllowed(path, cwd)
  {
  }

  lemma ParsesConcrete()
    ensures Parse("/a/b") == Path(true, ["a", "b"])
    ensures Parse("/a/bc") == Path(true, ["a", "bc"])
    ensures Parse("/a/b/c") == Path(true, ["a", "b", "c"])
  {
    var ab, abc, abSlashC := Path(true, ["a", "b"]), Path(true, ["a", "bc"]), Path(true, ["a", "b", "c"]);
    assert ["a", "b"][1..] == ["b"] && ["a", "bc"][1..] == ["bc"];
    assert ["a", "b", "c"][1..] == ["b", "c"] && ["b", "c"][1..] == ["c"];
    assert Format(ab) == "/a/b";
    assert Format(abc) == "/a/bc";
    assert Format(abSlashC) == "/a/b/c";
    ParseFormat(ab);
    ParseFormat(abc);
    ParseFormat(abSlashC);
  }

  /** Containment is by whole parts: `/a/bc` is not under `/a/b`, while `/a/b/c` is. */
  lemma WholePartContainment()
    ensures !IsRelativeTo(Parse("/a/bc"), Parse("/a/b"))
    ensures IsRelativeTo(Parse("/a/b/c"), Parse("/a/b"))
  {
    ParsesConcrete();
    assert ["a", "bc"][..2] == ["a", "bc"];
    assert ["a", "b", "c"][..2] == ["a", "b"];
  }
}
