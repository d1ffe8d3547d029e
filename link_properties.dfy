/**
 * What the visitor of `addQueryParam` does to one link: which URLs pass
 * through, how the two flags act, and the shape of the rewritten URL,
 * followed by the cases of the plugin's own test file.
 */
module LinkProperties {
  import opened Wrappers
  import opened Strings
  import opened SearchParams
  import opened Urls
  import opened AddQueryParam

  /** Empty URLs, anchors and every scheme other than HTTP(S) and relative paths are left as they are. */
  lemma IgnoredUntouched(cfg: Config, url: string, parser: UrlParser)
    requires ValidConfig(cfg)
    requires url == "" || url[0] == '#' || (!IsHttpUrl(url) && !IsRelativeUrl(url))
    ensures Rewrite(cfg, url, parser) == Untouched
  {
    if url != "" && url[0] == '#' {
      assert !IsHttpUrl(url) && !IsRelativeUrl(url) by {
        assert "http://"[0] != url[0] && "https://"[0] != url[0];
        assert "/"[0] != url[0] && "./"[0] != url[0] && "../"[0] != url[0];
      }
    }
  }

  /**
   * `externalLinks: false` leaves external links alone and
   * `internalLinks: false` internal ones; neither flag changes what happens
   * to the other class.
   */
  lemma FlagsIsolateClasses(cfg: Config, url: string, parser: UrlParser, flag: bool)
    requires ValidConfig(cfg)
    ensures IsHttpUrl(url) && !cfg.externalLinks ==> Rewrite(cfg, url, parser) == Untouched
    ensures IsRelativeUrl(url) && !cfg.internalLinks ==> Rewrite(cfg, url, parser) == Untouched
    ensures !IsHttpUrl(url) ==> Rewrite(cfg.(externalLinks := flag), url, parser) == Rewrite(cfg, url, parser)
    ensures !IsRelativeUrl(url) ==> Rewrite(cfg.(internalLinks := flag), url, parser) == Rewrite(cfg, url, parser)
  {
  }

  /**
   * An internal link becomes its path, then `?` and the merged query when
   * that is non-empty, then `#` and the fragment when there is one: the
   * placeholder base's scheme and host never appear.
   */
  lemma InternalRewriteShape(cfg: Config, url: string, parser: UrlParser, u: Url)
    requires ValidConfig(cfg)
    requires IsRelativeUrl(url) && cfg.internalLinks && parser.relative(url) == Some(u)
    ensures var merged := Merge(u.query, cfg.params);
      Rewrite(cfg, url, parser) == Rewritten(
        u.path
        + (if merged == [] then "" else "?" + SerializeQuery(merged))
        + (if u.fragment.None? || u.fragment.value == "" then "" else "#" + u.fragment.value))
  {
  }

  /** An external link is always reassigned to the full serialisation, with the merged query. */
  lemma ExternalRewriteShape(cfg: Config, url: string, parser: UrlParser, u: Url)
    requires ValidConfig(cfg)
    requires IsHttpUrl(url) && cfg.externalLinks && parser.absolute(url) == Some(u)
    ensures var merged := Merge(u.query, cfg.params);
      Rewrite(cfg, url, parser) == Rewritten(u.prefix + (
        u.path
        + (if merged == [] then "" else "?" + SerializeQuery(merged))
        + (if u.fragment.None? then "" else "#" + u.fragment.value)))
  {
    assert Classify(url) == External;
  }

  /** An external or internal URL that the parser rejects makes the visitor throw. */
  lemma UnparsableThrows(cfg: Config, url: string, parser: UrlParser)
    requires ValidConfig(cfg)
    requires (IsHttpUrl(url) && cfg.externalLinks && parser.absolute(url).None?)
          || (IsRelativeUrl(url) && cfg.internalLinks && parser.relative(url).None?)
    ensures Rewrite(cfg, url, parser) == InvalidUrl
  {
  }

  const Ref := "ref=myawesomewebsite.com"
  const RefPair := Pair("ref", "myawesomewebsite.com")
  const OldUtm := Pair("utm_source", "oldwebsite.com")
  const OldRef := Pair("ref", "oldwebsite.com")

  /** The configuration of the test file: one entry, both flags on. */
  function TestConfig(): (cfg: Config)
    ensures ValidConfig(cfg)
  {
    Config([Ref], true, true)
  }

  lemma Regroup(a: string, b: string, d: string)
    ensures a + (b + d) + "" == a + b + d
  {
  }

  lemma RegroupPrefixed(a: string, p: string, b: string, d: string)
    ensures a + (p + (b + d) + "") == a + p + b + d
  {
  }

  lemma RegroupPrefixedAfter(a: string, p: string, b: string, c: string, d: string)
    ensures a + (p + (b + (c + d)) + "") == a + p + b + c + d
  {
  }

  lemma RegroupAfter(a: string, b: string, c: string, d: string)
    ensures a + (b + (c + d)) + "" == a + b + c + d
  {
  }

  lemma RefSpelled() ensures "ref" + "=" + "myawesomewebsite.com" == Ref {}
  lemma RootSpelled() ensures "/" + "?" == "/?" {}
  lemma GoogleSpelled() ensures "https://www.google.com" + "/" + "?" == "https://www.google.com/?" {}
  lemma RootUtmSpelled()
    ensures "/" + "?" + ("utm_source" + "=" + "oldwebsite.com" + "&") == "/?utm_source=oldwebsite.com&"
  {}
  lemma GoogleUtmSpelled()
    ensures "https://www.google.com" + "/" + "?" + ("utm_source" + "=" + "oldwebsite.com" + "&")
      == "https://www.google.com/?utm_source=oldwebsite.com&"
  {}
  lemma GoogleRefSpelled()
    ensures "https://www.google.com" + "/" + "?" + ("ref" + "=" + "oldwebsite.com") == "https://www.google.com/?ref=oldwebsite.com"
  {}
  lemma RootRefSpelled() ensures "/" + "?" + ("ref" + "=" + "oldwebsite.com") == "/?ref=oldwebsite.com" {}
  lemma FragmentSpelled()
    ensures "ref" + "=" + "x" == "ref=x"
    ensures "/blog/post/" + ("?" + ("ref" + "=" + "x")) + ("#" + "section") == "/blog/post/?ref=x#section"
  {}

  /** The test file's entry splits into the pair `ref` = `myawesomewebsite.com`. */
  lemma RefEntry()
    ensures '=' in Ref && SplitEntry(Ref) == RefPair
  {
    SplitEntryOfJoined("ref", "myawesomewebsite.com");
    RefSpelled();
  }

  /** Merging the test file's entry into a query that lacks `ref` appends it. */
  lemma RefAppended(query: seq<Pair>)
    requires "ref" !in Names(query)
    ensures Merge(query, [Ref]) == query + [RefPair]
  {
    RefEntry();
    assert [Ref][..0] == [];
  }

  /** Merging the test file's entry into a query that already has a non-empty `ref` changes nothing. */
  lemma RefKept()
    ensures Merge([OldRef], [Ref]) == [OldRef]
  {
    RefEntry();
    assert [Ref][..0] == [];
    assert Get([OldRef], "ref") == Some("oldwebsite.com");
  }

  lemma SerializeExamples()
    ensures SerializeQuery([RefPair]) == Ref
    ensures SerializeQuery([OldUtm, RefPair]) == "utm_source" + "=" + "oldwebsite.com" + "&" + Ref
    ensures SerializeQuery([OldRef]) == "ref" + "=" + "oldwebsite.com"
  {
    RefSpelled();
    assert [OldUtm, RefPair][1..] == [RefPair];
  }

  /** The test file's root link `/` gains the parameter. */
  lemma InternalRootExample(parser: UrlParser)
    requires parser.relative("/") == Some(Url("https://example.com", "/", [], None))
    ensures Rewrite(TestConfig(), "/", parser) == Rewritten("/?" + Ref)
  {
    RefAppended([]);
    SerializeExamples();
    InternalRewriteShape(TestConfig(), "/", parser, Url("https://example.com", "/", [], None));
    Regroup("/", "?", Ref);
    RootSpelled();
  }

  /** The test file's `/?ref=oldwebsite.com` keeps its `ref`. */
  lemma InternalExistingRefExample(parser: UrlParser)
    requires parser.relative("/?ref=oldwebsite.com") == Some(Url("https://example.com", "/", [OldRef], None))
    ensures Rewrite(TestConfig(), "/?ref=oldwebsite.com", parser) == Rewritten("/?ref=oldwebsite.com")
  {
    RefKept();
    SerializeExamples();
    InternalRewriteShape(TestConfig(), "/?ref=oldwebsite.com", parser, Url("https://example.com", "/", [OldRef], None));
    Regroup("/", "?", "ref" + "=" + "oldwebsite.com");
    RootRefSpelled();
  }

  /** The test file's `/?utm_source=oldwebsite.com` gets `ref` after `utm_source`. */
  lemma InternalOtherKeyExample(parser: UrlParser)
    requires parser.relative("/?utm_source=oldwebsite.com") == Some(Url("https://example.com", "/", [OldUtm], None))
    ensures Rewrite(TestConfig(), "/?utm_source=oldwebsite.com", parser) ==
      Rewritten("/?utm_source=oldwebsite.com&" + Ref)
  {
    RefAppended([OldUtm]);
    SerializeExamples();
    InternalRewriteShape(TestConfig(), "/?utm_source=oldwebsite.com", parser, Url("https://example.com", "/", [OldUtm], None));
    RegroupAfter("/", "?", "utm_source" + "=" + "oldwebsite.com" + "&", Ref);
    RootUtmSpelled();
  }

  /** The test file's `/` with `internalLinks: false` is left alone. */
  lemma InternalFlagOffExample(parser: UrlParser)
    ensures Rewrite(TestConfig().(internalLinks := false), "/", parser) == Untouched
  {
    assert Classify("/") == Internal;
  }

  /** The test file's anchor `#section` is left alone. */
  lemma AnchorExample(parser: UrlParser)
    ensures Rewrite(TestConfig(), "#section", parser) == Untouched
  {
    IgnoredUntouched(TestConfig(), "#section", parser);
  }

  /** The test file's Google link with `externalLinks: false` is left alone. */
  lemma ExternalFlagOffExample(parser: UrlParser)
    ensures Rewrite(TestConfig().(externalLinks := false), "https://www.google.com", parser) == Untouched
  {
    assert Classify("https://www.google.com") == External;
  }

  /** The test file's `https://www.google.com`, parsed with the path `/`, gains the parameter after that path. */
  lemma ExternalExample(parser: UrlParser)
    requires parser.absolute("https://www.google.com") == Some(Url("https://www.google.com", "/", [], None))
    ensures Rewrite(TestConfig(), "https://www.google.com", parser) == Rewritten("https://www.google.com/?" + Ref)
  {
    RefAppended([]);
    SerializeExamples();
    ExternalRewriteShape(TestConfig(), "https://www.google.com", parser, Url("https://www.google.com", "/", [], None));
    RegroupPrefixed("https://www.google.com", "/", "?", Ref);
    GoogleSpelled();
  }

  /**
   * The test file's Google link that already has `ref` keeps that value,
   * but, being external, is reassigned to its serialisation, which has the
   * path `/`.
   */
  lemma ExternalExistingRefExample(parser: UrlParser)
    requires parser.absolute("https://www.google.com?ref=oldwebsite.com") ==
      Some(Url("https://www.google.com", "/", [OldRef], None))
    ensures Rewrite(TestConfig(), "https://www.google.com?ref=oldwebsite.com", parser) ==
      Rewritten("https://www.google.com/?ref=oldwebsite.com")
  {
    RefKept();
    SerializeExamples();
    ExternalRewriteShape(TestConfig(), "https://www.google.com?ref=oldwebsite.com", parser,
      Url("https://www.google.com", "/", [OldRef], None));
    RegroupPrefixed("https://www.google.com", "/", "?", "ref" + "=" + "oldwebsite.com");
    GoogleRefSpelled();
  }

  /** The test file's Google link with `utm_source` gets `ref` after it. */
  lemma ExternalOtherKeyExample(parser: UrlParser)
    requires parser.absolute("https://www.google.com?utm_source=oldwebsite.com") ==
      Some(Url("https://www.google.com", "/", [OldUtm], None))
    ensures Rewrite(TestConfig(), "https://www.google.com?utm_source=oldwebsite.com", parser) ==
      Rewritten("https://www.google.com/?utm_source=oldwebsite.com&" + Ref)
  {
    RefAppended([OldUtm]);
    SerializeExamples();
    ExternalRewriteShape(TestConfig(), "https://www.google.com?utm_source=oldwebsite.com", parser,
      Url("https://www.google.com", "/", [OldUtm], None));
    RegroupPrefixedAfter("https://www.google.com", "/", "?", "utm_source" + "=" + "oldwebsite.com" + "&", Ref);
    GoogleUtmSpelled();
  }

  /** The query goes before the fragment: `/blog/post/#section` becomes `/blog/post/?ref=x#section`. */
  lemma FragmentExample(parser: UrlParser)
    requires parser.relative("/blog/post/#section") == Some(Url("https://example.com", "/blog/post/", [], Some("section")))
    ensures Rewrite(Config(["ref=x"], true, true), "/blog/post/#section", parser) ==
      Rewritten("/blog/post/?ref=x#section")
  {
    FragmentSpelled();
    SplitEntryOfJoined("ref", "x");
    assert ["ref=x"][..0] == [];
    assert Merge([], ["ref=x"]) == [Pair("ref", "x")];
    InternalRewriteShape(Config(["ref=x"], true, true), "/blog/post/#section", parser,
      Url("https://example.com", "/blog/post/", [], Some("section")));
  }

  /**
   * A bare `#` is where the two serialisations differ: the internal
   * `/a#` loses it, the external `https://a.com/#` keeps it after the query.
   */
  lemma BareFragmentExample(parser: UrlParser)
    requires parser.relative("/a#") == Some(Url("https://example.com", "/a", [], Some("")))
    requires parser.absolute("https://a.com/#") == Some(Url("https://a.com", "/", [], Some("")))
    ensures Rewrite(Config(["ref=x"], true, true), "/a#", parser) == Rewritten("/a?ref=x")
    ensures Rewrite(Config(["ref=x"], true, true), "https://a.com/#", parser) == Rewritten("https://a.com/?ref=x#")
  {
    BareFragmentSpelled();
    SplitEntryOfJoined("ref", "x");
    assert ["ref=x"][..0] == [];
    assert Merge([], ["ref=x"]) == [Pair("ref", "x")];
    InternalRewriteShape(Config(["ref=x"], true, true), "/a#", parser,
      Url("https://example.com", "/a", [], Some("")));
    ExternalRewriteShape(Config(["ref=x"], true, true), "https://a.com/#", parser,
      Url("https://a.com", "/", [], Some("")));
  }

  lemma BareFragmentSpelled()
    ensures "ref" + "=" + "x" == "ref=x"
    ensures "/a" + ("?" + ("ref" + "=" + "x")) + "" == "/a?ref=x"
    ensures "https://a.com" + ("/" + ("?" + ("ref" + "=" + "x")) + ("#" + "")) == "https://a.com/?ref=x#"
  {}

  /** Other schemes are never rewritten, whatever the configuration. */
  lemma SchemeExamples(cfg: Config, parser: UrlParser)
    requires ValidConfig(cfg)
    ensures Rewrite(cfg, "mailto:a@b.com", parser) == Untouched
    ensures Rewrite(cfg, "tel:+123", parser) == Untouched
    ensures Rewrite(cfg, "ftp://x/y", parser) == Untouched
  {
  }

  /** The test file's `invalidformat` fails with the format error; `=x` and `x=` pass. */
  lemma ValidationExamples()
    ensures ValidateQueryParam("invalidformat") == Some(BadFormat("invalidformat"))
    ensures ValidateQueryParam("=x").None? && ValidateQueryParam("x=").None?
  {
  }

  /** An empty key or value is kept as it is, and the value stops at a second `=`. */
  lemma SplitExamples()
    ensures SplitEntry("=x") == Pair("", "x") && SplitEntry("x=") == Pair("x", "")
    ensures SplitEntry("a=b=c") == Pair("a", "b")
  {
  }

  /** `filter=price=100` sets `filter` to `price`, not to `price=100`. */
  lemma SplitDropsAfterSecondEquals()
    ensures '=' in "filter=price=100" && SplitEntry("filter=price=100") == Pair("filter", "price")
  {
    var pieces := ["filter", "price", "100"];
    FilterSpelled();
    JoinThenSplit(pieces, '=');
  }

  lemma FilterSpelled()
    ensures Join(["filter", "price", "100"], '=') == "filter=price=100"
  {
    assert ["filter", "price", "100"][1..] == ["price", "100"];
    assert ["price", "100"][1..] == ["100"];
    assert "filter" + ['='] + ("price" + ['='] + "100") == "filter=price=100";
  }
}
