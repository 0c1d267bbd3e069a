/** The application configuration file: where the vault lives, and how a
  * home-relative path is expanded. */
module Config {
  import opened Wrappers
  import opened Text

  /** The contents of `config.json`. */
  datatype AppConfig = AppConfig(dataDir: string)

  const DefaultDataDir := "~/.passbook/data"

  /** `ExpandPath`: a path starting with `~/` is resolved against `home`, the
    * user's home directory (empty when it cannot be found), with `join` standing
    * for `filepath.Join`; every other path is returned as it is. */
  function ExpandPath(path: string, home: string, join: (string, string) -> string): (r: string)
    ensures !HasPrefix(path, "~/") ==> r == path
    ensures HasPrefix(path, "~/") ==> exists rest :: path == "~/" + rest && r == join(home, rest)
  {
    if HasPrefix(path, "~/") then
      assert path == "~/" + path[2..];
      join(home, path[2..])
    else path
  }

  /** Only the exact prefix `~/` is expanded: a bare `~` and another user's
    * `~name/…` are left as they are. */
  lemma ExpandPathNeedsSlash(path: string, home: string, join: (string, string) -> string)
    requires path == "~" || (|path| >= 2 && path[0] == '~' && path[1] != '/')
    ensures ExpandPath(path, home, join) == path
  {
  }

  /** Expanding twice is expanding once, as long as the joined path does not
    * itself start with `~/`. */
  lemma ExpandPathIdempotent(path: string, home: string, join: (string, string) -> string)
    requires HasPrefix(path, "~/") ==> !HasPrefix(join(home, path[2..]), "~/")
    ensures ExpandPath(ExpandPath(path, home, join), home, join) == ExpandPath(path, home, join)
  {
  }

  /** `LoadOrInit`: `stored` is the configuration read from disk, `None` when
    * the file is missing or does not parse. The result is also written back,
    * and a failed write is ignored. */
  function LoadOrInit(stored: Option<AppConfig>): (cfg: AppConfig)
    ensures cfg.dataDir != ""
    ensures stored.Some? && stored.value.dataDir != "" ==> cfg == stored.value
    ensures (stored.None? || stored.value.dataDir == "") ==> cfg.dataDir == DefaultDataDir
  {
    var cfg := AppConfig(DefaultDataDir);
    if stored.Some? && stored.value.dataDir != "" then cfg.(dataDir := stored.value.dataDir) else cfg
  }

  /** The configuration written back is the one the next start reads. */
  lemma LoadOrInitStable(stored: Option<AppConfig>)
    ensures LoadOrInit(Some(LoadOrInit(stored))) == LoadOrInit(stored)
  {
  }
}
