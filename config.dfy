/**
 * The settings the archiver runs with (src/config/mod.rs): which creators and posts are
 * selected, how the cookie header is assembled from the session and the user's cookies,
 * and the user agent generated from the clock when none is configured.
 */
module Config {
  import opened Wrappers
  import opened Strings
  import F = Fanbox
  import Paths

  /** The options this model reads (verbosity, progress bars and the save type are not modelled). */
  datatype Config = Config(
    session: String,
    output: Paths.Path,
    force: bool,
    overwrite: bool,
    whitelist: seq<String>,
    blacklist: seq<String>,
    limit: nat,
    skipFree: bool,
    userAgent: String,
    cookies: String)

  // ---------------------------------------------------------------------------
  // Selection rules
  // ---------------------------------------------------------------------------

  /**
   * `filter_creator`: a creator is rejected when free creators are skipped and it has no
   * fee, when a whitelist exists and does not name it, or when the blacklist names it.
   * The blacklist therefore wins over the whitelist.
   */
  function FilterCreator(config: Config, creator: F.Creator): (accept: bool)
    ensures accept <==>
      && !(config.skipFree && creator.fee == 0)
      && (config.whitelist == [] || creator.creatorId in config.whitelist)
      && creator.creatorId !in config.blacklist
    ensures creator.creatorId in config.blacklist ==> !accept
  {
    var id := creator.creatorId;
    var ok := true;
    var ok := ok && !(config.skipFree && creator.fee == 0);
    var ok := ok && (|config.whitelist| == 0 || id in config.whitelist);
    var ok := ok && id !in config.blacklist;
    ok
  }

  /**
   * `filter_post`: a post is rejected when free posts are skipped and it costs nothing, or
   * when it is restricted (the account may not read it).
   */
  function FilterPost(config: Config, post: F.PostListItem): (accept: bool)
    ensures accept <==> !(config.skipFree && post.feeRequired == 0) && !post.isRestricted
    ensures accept && config.skipFree ==> post.feeRequired > 0
  {
    var ok := true;
    var ok := ok && !(config.skipFree && post.feeRequired == 0);
    var ok := ok && !post.isRestricted;
    ok
  }

  // ---------------------------------------------------------------------------
  // The cookie header
  // ---------------------------------------------------------------------------

  const SessionName: String := "FANBOXSESSID"
  const SessionPrefix: String := SessionName + "="

  /**
   * The session cookie's value: every leading `FANBOXSESSID=` removed, then every trailing
   * `;`, then surrounding whitespace.
   */
  function SessionValue(session: String): (v: String)
    ensures v != [] ==> !IsWhitespace(v[0]) && !IsWhitespace(v[|v| - 1])
    ensures (forall i :: 0 <= i < |session| ==> !IsWhitespace(session[i])) &&
            !(SessionPrefix <= session) && (session == [] || session[|session| - 1] != ';')
            ==> v == session
  {
    Trim(TrimEndMatches(TrimStartMatches(session, SessionPrefix), ';'))
  }

  /** The session may be given with or without its cookie name. */
  lemma SessionPrefixOptional(value: String)
    ensures SessionValue(SessionPrefix + value) == SessionValue(value)
  {
    var s := SessionPrefix + value;
    assert SessionPrefix <= s;
    assert s[|SessionPrefix|..] == value;
  }

  /**
   * One `;`-separated segment of the user's cookies: dropped when it is blank after
   * trimming or has no `=`, otherwise split at its first `=`.
   */
  function ParseCookie(segment: String): (r: Option<(String, String)>)
    ensures r.Some? <==> Trim(segment) != [] && '=' in Trim(segment)
    ensures r.Some? ==> Trim(segment) == r.value.0 + "=" + r.value.1 && '=' !in r.value.0
  {
    var trimmed := Trim(segment);
    if trimmed == [] then None else SplitOnce(trimmed, '=')
  }

  /** `filter_map`'s second half: the present values, in order. */
  function Somes<T>(s: seq<Option<T>>): (r: seq<T>)
    ensures |r| <= |s|
  {
    if s == [] then [] else (if s[0].Some? then [s[0].value] else []) + Somes(s[1..])
  }

  /** Every value kept was present at some position. */
  lemma {:induction false} SomesSound<T>(s: seq<Option<T>>, i: nat)
    requires i < |Somes(s)|
    ensures exists k :: 0 <= k < |s| && s[k] == Some(Somes(s)[i])
  {
    if s[0].Some? && i == 0 {
      assert s[0] == Some(Somes(s)[0]);
    } else {
      var j := if s[0].Some? then i - 1 else i;
      SomesSound(s[1..], j);
      var k :| 0 <= k < |s[1..]| && s[1..][k] == Some(Somes(s[1..])[j]);
      assert s[k + 1] == s[1..][k];
    }
  }

  /** No present value is lost. */
  lemma {:induction false} SomesComplete<T>(s: seq<Option<T>>, k: nat)
    requires k < |s| && s[k].Some?
    ensures s[k].value in Somes(s)
  {
    if k > 0 {
      assert s[1..][k - 1] == s[k];
      SomesComplete(s[1..], k - 1);
    }
  }

  /** Each `;`-separated segment of the user's cookie string, parsed. */
  function ParsedSegments(cookies: String): (r: seq<Option<(String, String)>>)
    ensures |r| == |Split(cookies, ';')|
    ensures forall k :: 0 <= k < |r| ==> r[k] == ParseCookie(Split(cookies, ';')[k])
  {
    var segments := Split(cookies, ';');
    seq(|segments|, k requires 0 <= k < |segments| => ParseCookie(segments[k]))
  }

  /** The name/value pairs the user's cookie string contributes, in order. */
  function CookiePairs(cookies: String): seq<(String, String)> {
    Somes(ParsedSegments(cookies))
  }

  /** `collect::<HashMap<_, _>>()`: pairs inserted in order, so a later key replaces an earlier one. */
  function Collect(pairs: seq<(String, String)>): (m: map<String, String>)
    ensures |m| <= |pairs|
    ensures pairs != [] ==> pairs[|pairs| - 1].0 in m && m[pairs[|pairs| - 1].0] == pairs[|pairs| - 1].1
  {
    if pairs == [] then map[]
    else
      var last := pairs[|pairs| - 1];
      Collect(pairs[..|pairs| - 1])[last.0 := last.1]
  }

  /** The table's names are exactly the names of the pairs. */
  lemma {:induction false} CollectKeys(pairs: seq<(String, String)>, name: String)
    ensures name in Collect(pairs) <==> exists i :: 0 <= i < |pairs| && pairs[i].0 == name
  {
    if pairs != [] {
      var front := pairs[..|pairs| - 1];
      CollectKeys(front, name);
      assert forall i :: 0 <= i < |front| ==> front[i] == pairs[i];
    }
  }

  /** A pair whose name does not occur again later is the one the table keeps. */
  lemma {:induction false} CollectLastWins(pairs: seq<(String, String)>, i: nat)
    requires i < |pairs|
    requires forall j :: i < j < |pairs| ==> pairs[j].0 != pairs[i].0
    ensures pairs[i].0 in Collect(pairs) && Collect(pairs)[pairs[i].0] == pairs[i].1
  {
    if i < |pairs| - 1 {
      var front := pairs[..|pairs| - 1];
      assert front[i] == pairs[i];
      CollectLastWins(front, i);
    }
  }

  /** The pairs collected into the cookie table: the user's, then the session's. */
  function AllPairs(config: Config): (r: seq<(String, String)>)
    ensures |r| == |CookiePairs(config.cookies)| + 1
    ensures r[..|r| - 1] == CookiePairs(config.cookies)
    ensures r[|r| - 1] == (SessionName, SessionValue(config.session))
  {
    CookiePairs(config.cookies) + [(SessionName, SessionValue(config.session))]
  }

  /** The cookie table: the session comes last, so it replaces a user cookie of the same name. */
  function CookieMap(config: Config): (m: map<String, String>)
    ensures SessionName in m && m[SessionName] == SessionValue(config.session)
  {
    Collect(AllPairs(config))
  }

  /** A name other than the last pair's comes from one of the pairs before it. */
  lemma CollectNamesBeforeLast(front: seq<(String, String)>, last: (String, String), name: String)
    requires name in Collect(front + [last]) && name != last.0
    ensures exists i :: 0 <= i < |front| && front[i].0 == name
  {
    assert (front + [last])[..|front|] == front;
    CollectKeys(front, name);
  }

  /** The table names the session and exactly the names of the pairs from the user's cookie string. */
  lemma CookieMapNames(config: Config, name: String)
    ensures name in CookieMap(config) <==>
      name == SessionName || exists i :: 0 <= i < |CookiePairs(config.cookies)| && CookiePairs(config.cookies)[i].0 == name
  {
    var user := CookiePairs(config.cookies);
    forall i | 0 <= i < |user| ensures user[i].0 in CookieMap(config) {
      UserNameCollected(config, i);
    }
    if name in CookieMap(config) && name != SessionName {
      CollectNamesBeforeLast(user, (SessionName, SessionValue(config.session)), name);
    }
  }

  /** The name of each pair from the user's cookie string is in the table. */
  lemma UserNameCollected(config: Config, i: nat)
    requires i < |CookiePairs(config.cookies)|
    ensures CookiePairs(config.cookies)[i].0 in CookieMap(config)
  {
    var pairs := AllPairs(config);
    assert pairs[i] == CookiePairs(config.cookies)[i];
    CollectKeys(pairs, pairs[i].0);
  }

  /** `order` lists the keys of `m`, each once: the order a HashMap happens to iterate in. */
  predicate ListsKeys(order: seq<String>, m: map<String, String>) {
    && (forall k :: k in m ==> k in order)
    && (forall i :: 0 <= i < |order| ==> order[i] in m)
    && (forall i, j :: 0 <= i < j < |order| ==> order[i] != order[j])
  }

  /** The header's entries, `name=value` with both sides trimmed, in iteration order. */
  function Entries(m: map<String, String>, order: seq<String>): (r: seq<String>)
    requires ListsKeys(order, m)
    ensures |r| == |order|
    ensures forall i :: 0 <= i < |order| ==> r[i] == Trim(order[i]) + "=" + Trim(m[order[i]])
  {
    seq(|order|, i requires 0 <= i < |order| => Trim(order[i]) + "=" + Trim(m[order[i]]))
  }

  /**
   * `cookies()`: the entries of the cookie table joined by `;`. A session free of `;` keeps
   * every name and value free of it, so the header splits back into exactly its entries.
   */
  function Cookies(config: Config, order: seq<String>): (r: String)
    requires ListsKeys(order, CookieMap(config))
    ensures ';' !in config.session ==> Split(r, ';') == Entries(CookieMap(config), order)
  {
    var header := Join(Entries(CookieMap(config), order), ';');
    if ';' in config.session then header
    else HeaderSplits(config, order); header
  }

  /** The step behind `Cookies`' promise, on the joined entries themselves. */
  lemma HeaderSplits(config: Config, order: seq<String>)
    requires ListsKeys(order, CookieMap(config))
    requires ';' !in config.session
    ensures Split(Join(Entries(CookieMap(config), order), ';'), ';') == Entries(CookieMap(config), order)
  {
    CookieMapHasNoSemicolon(config);
    assert order != [] by { assert SessionName in order; }
    EntriesSplit(CookieMap(config), order, ';');
  }

  /** The session cookie's name holds neither whitespace nor a separator. */
  lemma SessionNameIsPlain()
    ensures forall i :: 0 <= i < |SessionName| ==> !IsWhitespace(SessionName[i])
    ensures ';' !in SessionName && '=' !in SessionName
  {
    assert forall i :: 0 <= i < |SessionName| ==> 'A' <= SessionName[i] <= 'Z';
  }

  /** Trimming the session entry's name and value changes neither. */
  lemma SessionEntry(session: String)
    ensures Trim(SessionName) + "=" + Trim(SessionValue(session)) == SessionPrefix + SessionValue(session)
  {
    SessionNameIsPlain();
    assert Trim(SessionName) == SessionName;
    TrimIdempotent(TrimEndMatches(TrimStartMatches(session, SessionPrefix), ';'));
    assert Trim(SessionValue(session)) == SessionValue(session);
  }

  /** Trimming only removes characters. */
  lemma TrimKeepsAbsent(s: String, c: char)
    requires c !in s
    ensures c !in Trim(s)
  {
    var t := TrimStart(s);
    SliceKeepsAbsent(s, |s| - |t|, |s|, c);
    SliceKeepsAbsent(t, 0, |TrimEnd(t)|, c);
  }

  /**
   * Whatever the user's cookies say, the header carries the session entry
   * `FANBOXSESSID=<value>` with the normalised session value.
   */
  lemma {:induction false} CookiesCarrySession(config: Config, order: seq<String>)
    requires ListsKeys(order, CookieMap(config))
    ensures SessionPrefix + SessionValue(config.session) in Entries(CookieMap(config), order)
    ensures ';' !in config.session ==> SessionPrefix + SessionValue(config.session) in Split(Cookies(config, order), ';')
  {
    var m := CookieMap(config);
    EntryListed(m, order, SessionName);
    SessionEntry(config.session);
  }

  /** Each name in the table gives one entry of the header. */
  lemma EntryListed(m: map<String, String>, order: seq<String>, name: String)
    requires ListsKeys(order, m) && name in m
    ensures Trim(name) + "=" + Trim(m[name]) in Entries(m, order)
  {
    var i :| 0 <= i < |order| && order[i] == name;
    assert Entries(m, order)[i] == Trim(name) + "=" + Trim(m[name]);
  }

  /** A character absent from a segment is absent from the name and the value parsed from it. */
  lemma ParseCookieKeepsAbsent(segment: String, c: char)
    requires c !in segment && ParseCookie(segment).Some?
    ensures c !in ParseCookie(segment).value.0 && c !in ParseCookie(segment).value.1
  {
    TrimKeepsAbsent(segment, c);
    var t := Trim(segment);
    var pair := ParseCookie(segment).value;
    assert t == pair.0 + "=" + pair.1;
    assert pair.0 == t[..|pair.0|] && pair.1 == t[|pair.0| + 1..];
    SliceKeepsAbsent(t, 0, |pair.0|, c);
    SliceKeepsAbsent(t, |pair.0| + 1, |t|, c);
  }

  /** Every pair from the user's cookie string is free of `;`, being part of one segment. */
  lemma {:induction false} CookiePairsHaveNoSemicolon(cookies: String, i: nat)
    requires i < |CookiePairs(cookies)|
    ensures ';' !in CookiePairs(cookies)[i].0 && ';' !in CookiePairs(cookies)[i].1
  {
    var segments := Split(cookies, ';');
    var parsed := ParsedSegments(cookies);
    SomesSound(parsed, i);
    var k :| 0 <= k < |parsed| && parsed[k] == Some(CookiePairs(cookies)[i]);
    ParseCookieKeepsAbsent(segments[k], ';');
  }

  /** The normalised session holds no character the raw session lacks. */
  lemma SessionValueKeepsAbsent(session: String, c: char)
    requires c !in session
    ensures c !in SessionValue(session)
  {
    var a := TrimStartMatches(session, SessionPrefix);
    SliceKeepsAbsent(session, |session| - |a|, |session|, c);
    var b := TrimEndMatches(a, ';');
    SliceKeepsAbsent(a, 0, |b|, c);
    TrimKeepsAbsent(b, c);
  }

  /** Every entry of a collected table is one of the pairs. */
  lemma {:induction false} CollectFrom(pairs: seq<(String, String)>, name: String)
    requires name in Collect(pairs)
    ensures exists w :: 0 <= w < |pairs| && pairs[w] == (name, Collect(pairs)[name])
  {
    var last := pairs[|pairs| - 1];
    var front := pairs[..|pairs| - 1];
    if name != last.0 {
      CollectFrom(front, name);
      var w :| 0 <= w < |front| && front[w] == (name, Collect(front)[name]);
      assert pairs[w] == front[w];
    } else {
      assert pairs[|pairs| - 1] == (name, Collect(pairs)[name]);
    }
  }

  /** A table collected from pairs free of `c` has names and values free of `c`. */
  lemma CollectKeepsAbsent(pairs: seq<(String, String)>, c: char, name: String)
    requires forall i :: 0 <= i < |pairs| ==> c !in pairs[i].0 && c !in pairs[i].1
    requires name in Collect(pairs)
    ensures c !in name && c !in Collect(pairs)[name]
  {
    CollectFrom(pairs, name);
    var w :| 0 <= w < |pairs| && pairs[w] == (name, Collect(pairs)[name]);
  }

  /** Neither the user's pairs nor the session pair hold `;` when the session does not. */
  lemma AllPairsHaveNoSemicolon(config: Config, i: nat)
    requires ';' !in config.session
    requires i < |AllPairs(config)|
    ensures ';' !in AllPairs(config)[i].0 && ';' !in AllPairs(config)[i].1
  {
    var user := CookiePairs(config.cookies);
    if i < |user| {
      assert AllPairs(config)[i] == user[i];
      CookiePairsHaveNoSemicolon(config.cookies, i);
    } else {
      var pairs := AllPairs(config);
      assert i == |pairs| - 1;
      assert pairs[|pairs| - 1] == (SessionName, SessionValue(config.session));
      SessionNameIsPlain();
      SessionValueKeepsAbsent(config.session, ';');
    }
  }

  /** No name or value in the cookie table holds `;` unless the session does. */
  lemma CookieMapHasNoSemicolon(config: Config)
    requires ';' !in config.session
    ensures forall name :: name in CookieMap(config) ==> ';' !in name && ';' !in CookieMap(config)[name]
  {
    var pairs := AllPairs(config);
    forall i | 0 <= i < |pairs| ensures ';' !in pairs[i].0 && ';' !in pairs[i].1 {
      AllPairsHaveNoSemicolon(config, i);
    }
    forall name | name in Collect(pairs) ensures ';' !in name && ';' !in Collect(pairs)[name] {
      CollectKeepsAbsent(pairs, ';', name);
    }
  }

  /**
   * Entries free of the separator split back apart: with `CookieMapHasNoSemicolon`, a
   * session free of `;` makes the header split on `;` into exactly its entries.
   */
  lemma EntriesSplit(m: map<String, String>, order: seq<String>, c: char)
    requires ListsKeys(order, m) && order != [] && c != '='
    requires forall name :: name in m ==> c !in name && c !in m[name]
    ensures Split(Join(Entries(m, order), c), c) == Entries(m, order)
  {
    var entries := Entries(m, order);
    forall i | 0 <= i < |entries| ensures c !in entries[i] {
      EntryKeepsAbsent(order[i], m[order[i]], c);
    }
    SplitJoin(entries, c);
  }

  /** An entry built from a name and a value free of `c` (other than `=`) is free of `c`. */
  lemma EntryKeepsAbsent(name: String, value: String, c: char)
    requires c !in name && c !in value && c != '='
    ensures c !in Trim(name) + "=" + Trim(value)
  {
    TrimKeepsAbsent(name, c);
    TrimKeepsAbsent(value, c);
  }

  // ---------------------------------------------------------------------------
  // The generated user agent
  // ---------------------------------------------------------------------------

  const I64_MIN: int := -0x8000_0000_0000_0000
  const I64_MAX: int := 0x7FFF_FFFF_FFFF_FFFF
  const U64_MODULUS: int := 0x1_0000_0000_0000_0000

  /**
   * `timestamp_millis() as u64 / 1000`: the signed milliseconds reinterpreted as an unsigned
   * 64-bit value (two's complement), then whole seconds.
   */
  function EpochSeconds(millis: int): (dt: nat)
    requires I64_MIN <= millis <= I64_MAX
    ensures millis >= 0 ==> dt == millis / 1000
    ensures millis < 0 ==> dt == (millis + U64_MODULUS) / 1000
    ensures dt < U64_MODULUS / 1000 + 1
  {
    (millis % U64_MODULUS) / 1000
  }

  /** The three version numbers the generated user agent carries. */
  datatype Versions = Versions(major: nat, webkit: nat, chrome: nat)

  function VersionsAt(dt: nat): (v: Versions)
    ensures v.major == 4 || v.major == 5
    ensures v.major == 4 <==> dt % 2 == 0
    ensures v.webkit < 64
    ensures 132 <= v.chrome <= 136
  {
    Versions(dt % 2 + 4, dt / 2 % 64, dt / 128 % 5 + 132)
  }

  /**
   * Division by a positive constant: the quotient and remainder are the unique such pair.
   * `VersionsPeriod` and `VersionsEncodeSeconds` rest on it.
   */
  lemma DivModUnique(x: int, m: int, q: int, r: int)
    requires m > 0 && 0 <= r < m && x == m * q + r
    ensures x / m == q && x % m == r
  {
    var q', r' := x / m, x % m;
    assert x == m * q' + r' && 0 <= r' < m;
    assert m * (q - q') == r' - r by {
      assert m * q - m * q' == m * (q - q');
    }
    MulAwayFromZero(m, q - q');
  }

  /** A non-zero multiple of a positive `m` is at least `m` away from zero; used by `DivModUnique`. */
  lemma MulAwayFromZero(m: int, e: int)
    requires m > 0
    ensures e >= 1 ==> m * e >= m
    ensures e <= -1 ==> m * e <= -m
  {
    if e >= 1 {
      MulAtLeast(m, e);
    } else if e <= -1 {
      MulAtLeast(m, -e);
      assert m * -e == -(m * e);
    }
  }

  /** A positive multiple of a positive `m` is at least `m`; used by `MulAwayFromZero`. */
  lemma MulAtLeast(m: int, d: int)
    requires m > 0 && d >= 1
    ensures m * d >= m
  {
    assert m * d == m + m * (d - 1);
  }

  /** The versions repeat every 640 seconds (the parity, 64 half-seconds and five 128-second steps). */
  lemma VersionsPeriod(dt: nat)
    ensures VersionsAt(dt + 640) == VersionsAt(dt)
  {
    var h := dt / 2;
    DivModUnique(dt + 640, 2, h + 320, dt % 2);
    DivModUnique(h + 320, 64, h / 64 + 5, h % 64);
    var k := dt / 128;
    DivModUnique(dt + 640, 128, k + 5, dt % 128);
    DivModUnique(k + 5, 5, k / 5 + 1, k % 5);
  }

  /** The major version and the WebKit minor version together encode the seconds modulo 128. */
  lemma VersionsEncodeSeconds(dt: nat)
    ensures (VersionsAt(dt).major - 4) + 2 * VersionsAt(dt).webkit == dt % 128
  {
    var q := dt / 2;
    var h := q / 64;
    DivModUnique(dt, 128, h, 2 * (q % 64) + dt % 2);
  }

  /** The generated agent: its leading version digit is the major version, 4 on even seconds and 5 on odd ones. */
  function GeneratedUserAgent(dt: nat): (ua: String)
    ensures "Mozilla/" <= ua
    ensures |ua| > 8 && ua[8] == DigitChar(VersionsAt(dt).major)
    ensures ua[8] == if dt % 2 == 0 then '4' else '5'
  {
    var v := VersionsAt(dt);
    "Mozilla/" + NatToString(v.major) + ".0 (Windows NT 10.0; Win64; x64) AppleWebKit/537."
    + NatToString(v.webkit) + " (KHTML, like Gecko) Chrome/" + NatToString(v.chrome)
    + ".0.0.0 Safari/537." + NatToString(v.webkit)
  }

  /** `parse`: an empty user agent is replaced by one generated from the clock; any other is kept. */
  function ParseUserAgent(configured: String, millis: int): (ua: String)
    requires I64_MIN <= millis <= I64_MAX
    ensures configured != [] ==> ua == configured
    ensures configured == [] ==> ua == GeneratedUserAgent(EpochSeconds(millis))
    ensures ua != []
  {
    if |configured| == 0 then GeneratedUserAgent(EpochSeconds(millis)) else configured
  }
}
