/** The four recognised options of the sticky upload store.  The source reads
    them from the web framework's global settings; here they are a plain
    record passed to every operation. */
module Settings {

  datatype Config = Config(
    dir: string,             // DIR: root directory of the store
    stickiness: int,         // STICKINESS: seconds before a session may be evicted
    maxFilesPerUser: int,    // MAX_FILES_PER_USER: per-user ceiling before the user is wiped
    maxStickyFiles: int      // MAX_STICKY_FILES: global ceiling before the store is wiped
  )

  const DefaultStickiness: int := 3600
  const DefaultMaxFilesPerUser: int := 10
  const DefaultMaxStickyFiles: int := 1000

  /** The configuration with the default limits, rooted at `dir`. */
  function Defaults(dir: string): (cfg: Config)
    ensures cfg.dir == dir && WellFormed(cfg)
  {
    Config(dir, DefaultStickiness, DefaultMaxFilesPerUser, DefaultMaxStickyFiles)
  }

  /** Limits that are counts of files. */
  predicate WellFormed(cfg: Config) {
    cfg.maxFilesPerUser >= 0 && cfg.maxStickyFiles >= 0
  }
}
