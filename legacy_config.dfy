/**
 * The older settings object (src/config.rs): cookie values normalised to `name=value`
 * form, the default user agent, the cache directory switch and the creator filter.
 */
module LegacyConfig {
  import opened Wrappers
  import opened Strings
  import F = Fanbox
  import Paths
  import Newer = Config

  /** The options this model reads (verbosity, progress bars and the save type are not modelled). */
  datatype Config = Config(
    session: String,
    output: Paths.Path,
    force: bool,
    whitelist: seq<String>,
    blacklist: seq<String>,
    limit: nat,
    cachePath: Option<String>,
    noCache: bool,
    skipFree: bool,
    clearance: Option<String>,
    userAgent: Option<String>)

  const SessionPrefix: String := "FANBOXSESSID="
  const ClearancePrefix: String := "cf_clearance="
  const DefaultUserAgent: String :=
    "Mozilla/5.0 (Windows NT 10.0; Win64; x64) AppleWebKit/537.36 (KHTML, like Gecko) Chrome/126.0.0.0 Safari/537.36 Edg/126.0.0.0"

  // ---------------------------------------------------------------------------
  // Cookie values
  // ---------------------------------------------------------------------------

  /**
   * A cookie in `name=value` form: `value` as given when it already starts with the
   * `name=` prefix, otherwise with the prefix put in front.
   */
  function WithPrefix(value: String, prefix: String): (r: String)
    ensures prefix <= r
    ensures |r| == |value| || |r| == |prefix| + |value|
    ensures r[|r| - |value|..] == value
    ensures prefix <= value <==> r == value
  {
    if prefix <= value then value else prefix + value
  }

  /** Normalising twice gives what normalising once gave: the prefix is never doubled. */
  lemma WithPrefixIdempotent(value: String, prefix: String)
    ensures WithPrefix(WithPrefix(value, prefix), prefix) == WithPrefix(value, prefix)
  {
  }

  /** `session()`: the session cookie, always starting with `FANBOXSESSID=`. */
  function Session(config: Config): (r: String)
    ensures SessionPrefix <= r
    ensures SessionPrefix <= config.session ==> r == config.session
    ensures !(SessionPrefix <= config.session) ==> r == SessionPrefix + config.session
  {
    WithPrefix(config.session, SessionPrefix)
  }

  /** `clearance()`: the clearance cookie; an unset one is the bare `cf_clearance=`. */
  function Clearance(config: Config): (r: String)
    ensures ClearancePrefix <= r
    ensures config.clearance.None? ==> r == ClearancePrefix
    ensures config.clearance.Some? && ClearancePrefix <= config.clearance.value ==> r == config.clearance.value
    ensures config.clearance.Some? && !(ClearancePrefix <= config.clearance.value) ==>
      r == ClearancePrefix + config.clearance.value
  {
    WithPrefix(config.clearance.UnwrapOr([]), ClearancePrefix)
  }

  /** `user_agent()`: the configured agent, or the fixed default one. */
  function UserAgent(config: Config): (r: String)
    ensures config.userAgent.Some? ==> r == config.userAgent.value
    ensures config.userAgent.None? ==> r == DefaultUserAgent
  {
    config.userAgent.UnwrapOr(DefaultUserAgent)
  }

  // ---------------------------------------------------------------------------
  // The cache directory
  // ---------------------------------------------------------------------------

  /** `cache()`: no cache when it is switched off or downloads are forced; otherwise the configured directory or `.`. */
  function Cache(config: Config): (r: Option<Paths.Path>)
    ensures r.None? <==> config.noCache || config.force
    ensures r.Some? && config.cachePath.Some? ==> r.value == [config.cachePath.value]
    ensures r.Some? && config.cachePath.None? ==> r.value == ["."]
  {
    if config.noCache || config.force then None
    else Some([config.cachePath.UnwrapOr(".")])
  }

  /** What the clean-up queue holds: a file's location and its serialised contents. */
  type CacheWrite = (Paths.Path, seq<bv8>)

  /**
   * `save_cache(file, data)` with `data` already serialised: when caching is on, one write
   * of `data` to `file` inside the cache directory is queued and `Some(())` returned;
   * otherwise nothing is queued and `None` returned.
   */
  function SaveCache(config: Config, file: String, data: seq<bv8>, queue: seq<CacheWrite>):
    (r: (Option<()>, seq<CacheWrite>))
    ensures r.0.None? <==> Cache(config).None?
    ensures r.0.None? ==> r.1 == queue
    ensures r.0.Some? ==> r.1 == queue + [(Paths.Join(Cache(config).value, file), data)]
  {
    match Cache(config)
    case None => (None, queue)
    case Some(cache) => (Some(()), queue + [(Paths.Join(cache, file), data)])
  }

  // ---------------------------------------------------------------------------
  // The creator filter
  // ---------------------------------------------------------------------------

  /**
   * `filter_creator(id)` as written: a non-empty whitelist ACCEPTS exactly the ids it does
   * NOT name; otherwise a non-empty blacklist rejects the ids it names.
   */
  function FilterCreatorAsWritten(config: Config, id: String): (accept: bool)
    ensures config.whitelist != [] ==> (accept <==> id !in config.whitelist)
    ensures config.whitelist == [] && config.blacklist != [] ==> (accept <==> id !in config.blacklist)
    ensures config.whitelist == [] && config.blacklist == [] ==> accept
  {
    if |config.whitelist| > 0 then id !in config.whitelist
    else if |config.blacklist| > 0 then id !in config.blacklist
    else true
  }

  /** The whitelist as written shuts out the very creator it lists and lets every other one in. */
  lemma FilterCreatorAsWrittenIsInverted(config: Config, listed: String, other: String)
    requires config.whitelist == [listed] && other != listed
    ensures !FilterCreatorAsWritten(config, listed)
    ensures FilterCreatorAsWritten(config, other)
  {
  }

  /**
   * The creator filter with the whitelist the right way round: a non-empty whitelist
   * accepts exactly the ids it names; otherwise a non-empty blacklist rejects the ids it names.
   */
  function FilterCreator(config: Config, id: String): (accept: bool)
    ensures config.whitelist != [] ==> (accept <==> id in config.whitelist)
    ensures config.whitelist == [] ==> (accept <==> id !in config.blacklist)
  {
    if |config.whitelist| > 0 then id in config.whitelist
    else if |config.blacklist| > 0 then id !in config.blacklist
    else true
  }

  /** Where the corrected filter and the as-written one part: on every id when there is a whitelist. */
  lemma CorrectedFilterDiffersOnWhitelist(config: Config, id: String)
    requires config.whitelist != []
    ensures FilterCreator(config, id) != FilterCreatorAsWritten(config, id)
  {
  }

  /**
   * The corrected filter is the newer filter of src/config/mod.rs when free creators are
   * not skipped and at most one of the two lists is given.
   */
  lemma FilterCreatorAgreesWithNewer(config: Config, newer: Newer.Config, creator: F.Creator)
    requires newer.whitelist == config.whitelist && newer.blacklist == config.blacklist
    requires !newer.skipFree && (config.whitelist == [] || config.blacklist == [])
    ensures FilterCreator(config, creator.creatorId) == Newer.FilterCreator(newer, creator)
  {
  }
}
