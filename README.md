# remark-add-query-param, modelled in Dafny

`addQueryParam` is a remark plugin that appends query parameters such as
`ref=myawesomewebsite.com` to the links of a Markdown document. At setup it
checks its `queryParam` option (one `key=value` string or an array of them)
and two flags, `externalLinks` and `internalLinks` (both `true` by default).
Then, for every link, it:

1. leaves the link alone when its URL is empty, is an anchor (`#…`), or
   starts with anything other than `http://`, `https://`, `/`, `./` or `../`;
2. leaves external (`http(s)://`) links alone when `externalLinks` is false,
   and internal (relative) links when `internalLinks` is false;
3. parses the URL (relative ones against the placeholder base
   `https://example.com`) and, for every configured entry in order, splits
   it with `split('=')`, skips it when `searchParams.get(key)` is truthy, and
   otherwise calls `searchParams.set(key, value)`;
4. writes back `url.toString()` for external links and
   `pathname + search + hash` for internal ones.

Modules:

- `Wrappers` (wrappers.dfy): `Option` and `Result`.
- `Strings` (strings.dfy): JavaScript's `split` with a one-character separator, and `join`.
- `SearchParams` (search_params.dfy): the name-value list behind `url.searchParams`,
  with `get` and `set` as section 6.2 of the WHATWG URL Standard defines them.
- `Urls` (urls.dfy): the parsed URL as a record `{prefix, path, query, fragment}`,
  with the fragment optional so that a bare `#` differs from no `#`,
  and its two serialisations (`toString()` and `pathname + search + hash`).
- `AddQueryParam` (add_query_param.dfy): setup (`Setup`, `ValidateQueryParam`),
  classification (`Classify`), the merge loop (`MergeParams`, specified by the
  function `Merge`) and the link visitor (`VisitLink`, specified by the function
  `Rewrite`).
- `MergeProperties` (merge_properties.dfy): what the merge loop does to the query list.
- `LinkProperties` (link_properties.dfy): what the visitor does to one link, and
  the cases of the plugin's test file.

Validation happens before any link is seen: `VisitLink` and `Rewrite`
require a configuration whose entries all contain `=` (`ValidConfig`), and
`Setup` is what produces one, only when every entry passes.

The URL parser is a parameter of the visitor (`UrlParser`: one function for
`new URL(url)`, one for `new URL(url, 'https://example.com')`); a parse that
fails stands for the `TypeError` that `new URL` throws, and the visitor then
yields `InvalidUrl`. The test-file lemmas state, as their preconditions, what
the parser returns for the URLs they use.

Behaviour of the code that is easy to misread:

- An existing *empty* value does not block a configured key: `get` returns
  `""`, which is falsy, so `set` replaces it (and drops later duplicates).
- The value of an entry is the second piece of `split('=')`, so
  `filter=price=100` sets `filter` to `price` (`SplitDropsAfterSecondEquals`).
- The only entry check is "contains `=`": `=x` and `x=` pass; there is no
  empty-key or empty-value error.
- There is one parameter list and two boolean flags, not separate lists for
  external and internal links (`types.ts` declares `externalQueryParams` and
  `internalQueryParams`, which the implementation never reads), and no
  dynamically computed values.
- An empty array passes setup (an array is truthy in JavaScript); only an
  absent option or the empty string is rejected as missing.
- A link that reaches the merge is always reassigned, even when no parameter
  was added, so there is no byte-for-byte passthrough for it.

## Model

| member | source | states |
|---|---|---|
| `AddQueryParam.ValidateQueryParam` | src/add-query-param/add-query-param.ts:6-12 | an entry passes exactly when it contains `=`; otherwise the error is the format error naming that entry |
| `AddQueryParam.Setup` | src/add-query-param/add-query-param.ts:28-38 | the "required" error exactly when `queryParam` is absent or `""`; success exactly when it is present and every entry contains `=`; a single string becomes a one-element list; both flags default to `true`; otherwise the format error names the first entry without `=`, every earlier entry having one |
| `AddQueryParam.Classify` | src/add-query-param/add-query-param.ts:42-66 | a URL is external exactly when it starts with `http://` or `https://`, internal exactly when it starts with `/`, `./` or `../`, and ignored otherwise (the empty-URL and anchor checks never exclude a URL the prefix tests would accept) |
| `AddQueryParam.SplitEntry` | src/add-query-param/add-query-param.ts:88 | the key is the text before the first `=`, the value the text from there up to the next `=` or the end; neither holds `=` |
| `AddQueryParam.SplitEntryOfJoined` | src/add-query-param/add-query-param.ts:88 | an entry `key=value` whose parts hold no `=` splits back into exactly that key and value |
| `AddQueryParam.MergeParams` | src/add-query-param/add-query-param.ts:87-97 | the loop over the entries, skipping a key whose `get` is truthy and `set`-ting the others, yields exactly `Merge` of the query and the entries |
| `AddQueryParam.VisitLink` | src/add-query-param/add-query-param.ts:42-103 | the visitor's early returns, parse, merge loop and reserialisation yield exactly `Rewrite` of the configuration, the URL and the parser |
| `Strings.Split` | src/add-query-param/add-query-param.ts:88 | `split` gives at least one piece, at least two exactly when the separator occurs, and no piece contains the separator |
| `Strings.SplitThenJoin` | src/add-query-param/add-query-param.ts:88 | joining the pieces of a split with the separator gives back the string |
| `Strings.JoinThenSplit` | src/add-query-param/add-query-param.ts:88 | splitting a join of separator-free pieces gives back the pieces, so the pieces are the only ones that join to the string |
| `SearchParams.FirstIndex` | src/add-query-param/add-query-param.ts:92 | the position of the first pair with a given name: that pair has the name and no earlier pair does |
| `SearchParams.Get` | src/add-query-param/add-query-param.ts:92 | `get` is `null` exactly when no pair has the name, and otherwise the value of the first pair with that name |
| `SearchParams.GetIsFirstOfRestrict` | src/add-query-param/add-query-param.ts:92 | `get` depends only on the pairs with that name: it reads the first of them |
| `SearchParams.Set` | src/add-query-param/add-query-param.ts:96 | after `set` exactly one pair has the name and it holds the new value; the pairs of other names are unchanged and in order; when the name was present the new pair sits at the first occurrence's position with everything before it unchanged; otherwise it is appended at the end |
| `SearchParams.SetKeepsOtherNames` | src/add-query-param/add-query-param.ts:96 | `set` of one name leaves the pairs of any set of other names exactly as they were |
| `SearchParams.SetKeepsOutside` | src/add-query-param/add-query-param.ts:96 | `set` of a name in a set of keys leaves every pair outside those keys, in order |
| `SearchParams.SetSameValue` | src/add-query-param/add-query-param.ts:96 | `set` of the value a name already holds, when it is that name's only pair, changes nothing |
| `Urls.Search` | src/add-query-param/add-query-param.ts:102 | `search` is empty exactly when the query list is empty, and otherwise starts with `?` |
| `Urls.Hash` | src/add-query-param/add-query-param.ts:102 | `hash` is empty exactly when the fragment is missing or empty, and otherwise is `#` followed by the fragment |
| `Urls.SerializeQuery` | src/add-query-param/add-query-param.ts:100-102 | the serialised query is empty exactly when the list is, and otherwise starts with the first pair's `name=value` |
| `Urls.FragmentSuffix` | src/add-query-param/add-query-param.ts:100 | the serialiser writes nothing after the query exactly when there is no fragment, and otherwise `#` followed by the fragment, even an empty one |
| `Urls.PathSearchHash` | src/add-query-param/add-query-param.ts:102 | `pathname + search + hash` starts with the path, has `?` right after the path exactly when the query is non-empty, and ends with `#` and the fragment when that is non-empty |
| `Urls.Href` | src/add-query-param/add-query-param.ts:100 | `toString()` starts with the scheme-and-host prefix and the path, has `?` right after the path exactly when the query is non-empty, and ends with `#` and the fragment whenever there is a fragment, so a bare `#` is kept |
| `AddQueryParam.Step` | src/add-query-param/add-query-param.ts:88-96 | one turn of the loop leaves the list unchanged when the key's value is truthy; otherwise the key ends up as one pair holding the entry's value, at its first occurrence (an existing empty value is replaced and later duplicates dropped) or appended at the end, and all other pairs stay in order |
| `MergeProperties.MergeKeepsUnconfigured` | src/add-query-param/add-query-param.ts:87-97 | pairs whose name is not a configured key keep their values and their relative order |
| `MergeProperties.MergeKeepsTruthy` | src/add-query-param/add-query-param.ts:90-94 | a key that already holds a non-empty value keeps exactly its pairs: the value is unchanged and no second pair is added |
| `MergeProperties.NamesOfNewPairs` | src/add-query-param/add-query-param.ts:88 | the pairs built from the entries carry exactly the configured keys |
| `MergeProperties.MergeAppendsAbsent` | src/add-query-param/add-query-param.ts:87-97 | configured keys that differ from each other and are absent from the query are appended after all existing pairs, in configuration order, with the existing pairs unchanged |
| `MergeProperties.TruthyInExtension` | src/add-query-param/add-query-param.ts:92 | in a list that starts with the query, `get` of a name the query holds truthily returns the query's value |
| `MergeProperties.FirstIndexBeyondPrefix` | src/add-query-param/add-query-param.ts:96 | in a list that starts with the query, the first pair of a name the query lacks lies after the query, so `set` of that name leaves the query's pairs in place |
| `MergeProperties.MergeKeepsExistingPrefix` | src/add-query-param/add-query-param.ts:87-97 | when every configured key is either missing from the query or already holds a non-empty value there, the original pairs stay first, unchanged and in order, and the loop only appends after them |
| `MergeProperties.MergeSettles` | src/add-query-param/add-query-param.ts:87-97 | after the loop every configured key is present, and each entry's key either holds a non-empty value or is a single pair holding that entry's value |
| `MergeProperties.MergeOfSettled` | src/add-query-param/add-query-param.ts:87-97 | running the loop on a list where every entry is already settled changes nothing |
| `MergeProperties.MergeIdempotent` | src/add-query-param/add-query-param.ts:87-97 | running the loop again with the same entries on its own result changes nothing |
| `LinkProperties.IgnoredUntouched` | src/add-query-param/add-query-param.ts:42-63 | an empty URL, an anchor, or a URL with neither an HTTP(S) nor a relative prefix (`mailto:`, `tel:`, `ftp:` …) is left untouched, whatever the configuration and parser |
| `LinkProperties.FlagsIsolateClasses` | src/add-query-param/add-query-param.ts:68-76 | `externalLinks: false` leaves external links untouched, `internalLinks: false` internal ones, and changing either flag never changes the outcome for a URL of the other class |
| `LinkProperties.InternalRewriteShape` | src/add-query-param/add-query-param.ts:99-103 | an internal link becomes the parsed path, then `?` and the merged query when that is non-empty, then `#` and the fragment when the fragment is non-empty; the base's scheme and host never appear |
| `LinkProperties.ExternalRewriteShape` | src/add-query-param/add-query-param.ts:99-100 | an external link is always reassigned to the scheme-and-host prefix, the path, the merged query and `#` with the fragment whenever there is one, in that order |
| `LinkProperties.UnparsableThrows` | src/add-query-param/add-query-param.ts:78-84 | an external or internal link that the URL parser rejects makes the visitor throw |
| `LinkProperties.SchemeExamples` | src/add-query-param/add-query-param.ts:51-63 | `mailto:`, `tel:` and `ftp:` URLs are untouched under any configuration |
| `LinkProperties.ValidationExamples` | src/add-query-param/add-query-param.test.ts:15-23 | `invalidformat` fails with the format error, while `=x` and `x=` pass |
| `LinkProperties.SplitExamples` | src/add-query-param/add-query-param.ts:88 | `=x` gives an empty key, `x=` an empty value, and `a=b=c` the value `b` |
| `LinkProperties.SplitDropsAfterSecondEquals` | src/add-query-param/add-query-param.ts:88 | `filter=price=100` sets `filter` to `price` |
| `LinkProperties.ExternalFlagOffExample` | src/add-query-param/add-query-param.test.ts:27-35 | `https://www.google.com` with `externalLinks: false` is untouched |
| `LinkProperties.ExternalExample` | src/add-query-param/add-query-param.test.ts:37-45 | `https://www.google.com`, parsed with the path `/`, becomes `https://www.google.com/?ref=myawesomewebsite.com` |
| `LinkProperties.ExternalExistingRefExample` | src/add-query-param/add-query-param.test.ts:47-55 | the existing `ref=oldwebsite.com` is kept and no second `ref` is added; the link is reassigned to its serialisation `https://www.google.com/?ref=oldwebsite.com` |
| `LinkProperties.ExternalOtherKeyExample` | src/add-query-param/add-query-param.test.ts:57-65 | `https://www.google.com?utm_source=oldwebsite.com` becomes `https://www.google.com/?utm_source=oldwebsite.com&ref=myawesomewebsite.com` |
| `LinkProperties.InternalFlagOffExample` | src/add-query-param/add-query-param.test.ts:69-75 | `/` with `internalLinks: false` is untouched |
| `LinkProperties.AnchorExample` | src/add-query-param/add-query-param.test.ts:77-85 | `#section` is untouched |
| `LinkProperties.InternalRootExample` | src/add-query-param/add-query-param.test.ts:87-95 | `/` becomes `/?ref=myawesomewebsite.com` |
| `LinkProperties.InternalExistingRefExample` | src/add-query-param/add-query-param.test.ts:97-105 | `/?ref=oldwebsite.com` stays `/?ref=oldwebsite.com` |
| `LinkProperties.InternalOtherKeyExample` | src/add-query-param/add-query-param.test.ts:107-115 | `/?utm_source=oldwebsite.com` becomes `/?utm_source=oldwebsite.com&ref=myawesomewebsite.com` |
| `LinkProperties.FragmentExample` | src/add-query-param/add-query-param.ts:101-102 | `/blog/post/#section` with `ref=x` becomes `/blog/post/?ref=x#section`: the query goes before the fragment |
| `LinkProperties.BareFragmentExample` | src/add-query-param/add-query-param.ts:99-103 | with `ref=x`, the internal `/a#` becomes `/a?ref=x` (`hash` drops the bare `#`) while the external `https://a.com/#` becomes `https://a.com/?ref=x#` |

## Left out

- The remark plugin wiring, the `visit` traversal and the mdast `Link` node
  (add-query-param.ts:1-4, 40-41): library plumbing. The visitor returns the
  new value of `node.url` instead of writing it into a node.
- URL parsing: `new URL` (host normalisation, the `/` path added to a bare
  host, resolving `./` and `../` against `https://example.com`) is a
  parameter of the visitor, not modelled.
- Percent-encoding: the query is serialised as `name=value` pairs joined by
  `&`, without the application/x-www-form-urlencoded escaping.
- The raw query text: the WHATWG URL keeps the original query text until
  the first `set` reserialises it (which can turn `?a` into `?a=`); the model
  always serialises the query from its pair list.
- `LinkProperties.ExternalExistingRefExample`: does not state the test's
  expectation that the link text stays byte-for-byte `https://www.google.com?ref=oldwebsite.com`,
  because the code reassigns every external link it reaches to its serialisation.
- `AddQueryParam.SplitEntry`: requires the entry to contain `=`; the code
  only splits entries that setup has validated, so `split` never yields a
  missing value here.
- Non-string entries in a `queryParam` array and non-boolean flag values:
  the options type in `types.ts` declares none of `queryParam`,
  `externalLinks` and `internalLinks`, which the implementation reads anyway;
  the model takes their types from the JSDoc of `addQueryParam`
  (add-query-param.ts:17-19): a string or an array of strings, and two booleans.
- The text of the error messages: only which error is raised is modelled.
- `src/add-query-param/types.ts`: type declarations only.
