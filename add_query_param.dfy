/**
 * The remark plugin `addQueryParam`: option checking at setup, then, for
 * each link, classification, gating by the two flags, the merge of the
 * configured `key=value` entries into the URL's query, and reserialisation.
 */
module AddQueryParam {
  import opened Wrappers
  import opened Strings
  import opened SearchParams
  import opened Urls

  /** The `queryParam` option: absent, one string, or an array of strings. */
  datatype QueryParamOption = Absent | Single(entry: string) | Many(entries: seq<string>)

  /** The plugin's options; an absent flag defaults to `true`. */
  datatype Options = Options(queryParam: QueryParamOption, externalLinks: Option<bool>, internalLinks: Option<bool>)

  /** The two errors setup can throw. */
  datatype SetupError = Required | BadFormat(entry: string)

  /** What setup leaves to the per-link visitor: the entry list and the two flags. */
  datatype Config = Config(params: seq<string>, externalLinks: bool, internalLinks: bool)

  /** Every entry holds an `=`, which setup checks before any link is seen. */
  predicate ValidConfig(cfg: Config) {
    AllHaveEquals(cfg.params)
  }

  /** Every entry holds an `=`. */
  predicate AllHaveEquals(params: seq<string>) {
    forall i :: 0 <= i < |params| ==> '=' in params[i]
  }

  /** `queryParam` with a single string turned into a one-element list. */
  function Entries(q: QueryParamOption): seq<string> {
    match q
    case Absent => []
    case Single(e) => [e]
    case Many(es) => es
  }

  /** `validateQueryParam`: None when the entry passes, the format error otherwise. */
  function ValidateQueryParam(entry: string): (r: Option<SetupError>)
    ensures r.None? <==> '=' in entry
    ensures r.Some? ==> r.value == BadFormat(entry)
  {
    if '=' in entry then None else Some(BadFormat(entry))
  }

  /**
   * Setup: reject a missing or empty `queryParam`, normalise a single string
   * to a list, then validate every entry in order, failing on the first one
   * without `=`.
   */
  method Setup(options: Options) returns (r: Result<Config, SetupError>)
    ensures r == Failure(Required) <==> options.queryParam == Absent || options.queryParam == Single("")
    ensures r.Success? <==>
      options.queryParam != Absent && options.queryParam != Single("") && AllHaveEquals(Entries(options.queryParam))
    ensures r.Success? ==>
      && r.value.params == Entries(options.queryParam)
      && ValidConfig(r.value)
      && r.value.externalLinks == options.externalLinks.GetOr(true)
      && r.value.internalLinks == options.internalLinks.GetOr(true)
    ensures r.Failure? && r.error != Required ==>
      var es := Entries(options.queryParam);
      exists i :: 0 <= i < |es| && r.error == BadFormat(es[i]) && '=' !in es[i] && AllHaveEquals(es[..i])
  {
    if options.queryParam == Absent || options.queryParam == Single("") {
      return Failure(Required);
    }
    var params: seq<string>;
    match options.queryParam {
      case Single(e) => params := [e];
      case Many(es) => params := es;
    }
    assert params == Entries(options.queryParam);
    for i := 0 to |params|
      invariant forall j :: 0 <= j < i ==> '=' in params[j]
    {
      var check := ValidateQueryParam(params[i]);
      if check.Some? {
        assert AllHaveEquals(params[..i]);
        return Failure(check.value);
      }
    }
    r := Success(Config(params, options.externalLinks.GetOr(true), options.internalLinks.GetOr(true)));
  }

  /** How the visitor treats a link URL. */
  datatype LinkClass = Ignored | External | Internal

  predicate IsHttpUrl(url: string) {
    "http://" <= url || "https://" <= url
  }

  predicate IsRelativeUrl(url: string) {
    "/" <= url || "./" <= url || "../" <= url
  }

  /**
   * The visitor's early returns, in source order: an empty URL and an anchor
   * are ignored, then HTTP(S) URLs are external, relative ones internal, and
   * any other scheme is ignored.
   */
  function Classify(url: string): (c: LinkClass)
    ensures c == External <==> IsHttpUrl(url)
    ensures c == Internal <==> IsRelativeUrl(url)
    ensures c == Ignored <==> !IsHttpUrl(url) && !IsRelativeUrl(url)
  {
    if url == "" then Ignored
    else if "#" <= url then assert url[0] == '#'; Ignored
    else if IsHttpUrl(url) then External
    else if IsRelativeUrl(url) then Internal
    else Ignored
  }

  /**
   * `const [key, value] = entry.split('=')`: the key is the text before the
   * first `=`, the value the text up to the next `=` or the end.
   */
  function SplitEntry(entry: string): (kv: Pair)
    requires '=' in entry
    ensures '=' !in kv.name && '=' !in kv.value
    ensures var n := |kv.name| + 1 + |kv.value|;
      n <= |entry| && entry[..n] == kv.name + "=" + kv.value && (n == |entry| || entry[n] == '=')
  {
    var pieces := Split(entry, '=');
    SplitThenJoin(entry, '=');
    assert |pieces| >= 2;
    assert entry == pieces[0] + ['='] + Join(pieces[1..], '=');
    Pair(pieces[0], pieces[1])
  }

  /** An entry written as `key=value`, with no `=` in either part, splits back into that key and value. */
  lemma SplitEntryOfJoined(key: string, value: string)
    requires '=' !in key && '=' !in value
    ensures '=' in key + "=" + value
    ensures SplitEntry(key + "=" + value) == Pair(key, value)
  {
    assert key + "=" + value == Join([key, value], '=');
    JoinThenSplit([key, value], '=');
  }

  /** JavaScript truthiness of the result of `get`: present and non-empty. */
  predicate Truthy(v: Option<string>) {
    v.Some? && v.value != ""
  }

  /**
   * One turn of the merge loop: a key with a truthy value is skipped;
   * otherwise `set` leaves the key as one pair holding the entry's value,
   * at the first pair of that name or at the end, and keeps every other
   * pair in order.
   */
  function Step(pairs: seq<Pair>, entry: string): (r: seq<Pair>)
    requires '=' in entry
    ensures var kv := SplitEntry(entry);
      && (Truthy(Get(pairs, kv.name)) ==> r == pairs)
      && (!Truthy(Get(pairs, kv.name)) ==>
            && Restrict(r, {kv.name}) == [kv]
            && Except(r, {kv.name}) == Except(pairs, {kv.name})
            && (kv.name in Names(pairs) ==>
                  var i := FirstIndex(pairs, kv.name);
                  i < |r| && r[..i] == pairs[..i] && r[i] == kv)
            && (kv.name !in Names(pairs) ==> r == pairs + [kv]))
  {
    var kv := SplitEntry(entry);
    if Truthy(Get(pairs, kv.name)) then pairs else Set(pairs, kv.name, kv.value)
  }

  /** The query list after the merge loop has run over `params` in order. */
  function Merge(query: seq<Pair>, params: seq<string>): seq<Pair>
    requires AllHaveEquals(params)
  {
    if params == [] then query
    else Step(Merge(query, params[..|params| - 1]), params[|params| - 1])
  }

  /** The merge loop, updating the query list entry by entry. */
  method MergeParams(query: seq<Pair>, params: seq<string>) returns (pairs: seq<Pair>)
    requires AllHaveEquals(params)
    ensures pairs == Merge(query, params)
  {
    pairs := query;
    for i := 0 to |params|
      invariant pairs == Merge(query, params[..i])
    {
      assert params[..i + 1][..i] == params[..i];
      var kv := SplitEntry(params[i]);
      var existing := Get(pairs, kv.name);
      if existing.Some? && existing.value != "" {
        continue;
      }
      pairs := Set(pairs, kv.name, kv.value);
    }
    assert params[..|params|] == params;
  }

  /**
   * The URL parser the visitor calls: `new URL(url)` for external links and
   * `new URL(url, 'https://example.com')` for internal ones; None stands for
   * the TypeError it throws on an invalid URL.
   */
  datatype UrlParser = UrlParser(absolute: string -> Option<Url>, relative: string -> Option<Url>)

  /** What visiting one link does to its `url`. */
  datatype Visit = Untouched | Rewritten(url: string) | InvalidUrl

  /** The effect of the visitor on one link. */
  function Rewrite(cfg: Config, url: string, parser: UrlParser): Visit
    requires ValidConfig(cfg)
  {
    match Classify(url)
    case Ignored => Untouched
    case External =>
      if !cfg.externalLinks then Untouched
      else (match parser.absolute(url)
        case None => InvalidUrl
        case Some(u) => Rewritten(Href(u.(query := Merge(u.query, cfg.params)))))
    case Internal =>
      if !cfg.internalLinks then Untouched
      else (match parser.relative(url)
        case None => InvalidUrl
        case Some(u) => Rewritten(PathSearchHash(u.(query := Merge(u.query, cfg.params)))))
  }

  /** The link visitor. */
  method VisitLink(cfg: Config, url: string, parser: UrlParser) returns (v: Visit)
    requires ValidConfig(cfg)
    ensures v == Rewrite(cfg, url, parser)
  {
    if url == "" {
      return Untouched;
    }
    if "#" <= url {
      return Untouched;
    }
    var isHttpUrl := "http://" <= url || "https://" <= url;
    var isRelativeUrl := "/" <= url || "./" <= url || "../" <= url;
    if !isHttpUrl && !isRelativeUrl {
      return Untouched;
    }
    var isExternalUrl, isInternalUrl := isHttpUrl, isRelativeUrl;
    if !cfg.externalLinks && isExternalUrl {
      return Untouched;
    }
    if !cfg.internalLinks && isInternalUrl {
      return Untouched;
    }
    var parsed := if isExternalUrl then parser.absolute(url) else parser.relative(url);
    if parsed.None? {
      return InvalidUrl;
    }
    var u := parsed.value;
    var merged := MergeParams(u.query, cfg.params);
    u := u.(query := merged);
    if isExternalUrl {
      v := Rewritten(Href(u));
    } else {
      v := Rewritten(PathSearchHash(u));
    }
  }
}
