/** Deciding whether a reported field is suppressed, by exact name or by a
    regular expression. */
module Filter {

  /** A compiled exclusion pattern. Regular-expression matching is not
      modelled: `matchString` stands for the compiled pattern's
      `MatchString`, whatever its semantics. */
  datatype Regex = Regex(matchString: string -> bool)

  /** The resolved configuration the per-line step reads: the exact field
      names given with `--exclude` and the patterns given with
      `--exclude-regex`, in command-line order. */
  datatype Config = Config(excludeKeys: seq<string>, excludeRegexes: seq<Regex>)

  /** Reference definition: `key` is excluded when it equals some exclusion
      string or some exclusion pattern matches it. */
  predicate Excluded(cfg: Config, key: string) {
    || key in cfg.excludeKeys
    || exists j :: 0 <= j < |cfg.excludeRegexes| && cfg.excludeRegexes[j].matchString(key)
  }

  /** The exporter's `ignoredKey`: first scan the exclusion strings for an
      exact match, then try each pattern in turn, returning as soon as one
      of them fires. */
  method IgnoredKey(cfg: Config, key: string) returns (ignored: bool)
    ensures ignored <==> Excluded(cfg, key)
    ensures key in cfg.excludeKeys ==> ignored
    ensures (exists j :: 0 <= j < |cfg.excludeRegexes| && cfg.excludeRegexes[j].matchString(key)) ==> ignored
    ensures |cfg.excludeKeys| == 0 && |cfg.excludeRegexes| == 0 ==> !ignored
  {
    var i := 0;
    while i < |cfg.excludeKeys|
      invariant 0 <= i <= |cfg.excludeKeys|
      invariant key !in cfg.excludeKeys[..i]
    {
      if key == cfg.excludeKeys[i] {
        return true;
      }
      i := i + 1;
    }
    assert cfg.excludeKeys[..i] == cfg.excludeKeys;
    var j := 0;
    while j < |cfg.excludeRegexes|
      invariant 0 <= j <= |cfg.excludeRegexes|
      invariant forall k :: 0 <= k < j ==> !cfg.excludeRegexes[k].matchString(key)
    {
      if cfg.excludeRegexes[j].matchString(key) {
        return true;
      }
      j := j + 1;
    }
    return false;
  }
}
