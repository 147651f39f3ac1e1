# minecraft-rss: the version-to-feed-item logic

This project models, in Dafny, how the Minecraft update feed turns the newest
entries of Mojang's version manifest into feed items (`src/feed.ts`):

- **Classification** (`extractType`): an entry typed `release` is a release; any
  other entry is a pre-release if its id matches `/(.+)-pre(\d+)/`, else a release
  candidate if it matches `/(.+)-rc(\d+)/`, else a snapshot. The two regular
  expressions are modelled with the engine's own rules: leftmost start, a greedy
  `(.+)` that cannot cross a line terminator, a greedy `(\d+)`; `parseInt` of the
  digit group is its decimal value.
- **Article resolution** (`findArticle`): a release or snapshot has exactly one
  expected article path (`/en-us/article/minecraft-java-edition-<id>` or
  `/en-us/article/minecraft-snapshot-<id>`, dots turned into dashes) and gets the
  first article of the listing with that path. A pre-release or release candidate
  is probed downward from its build number to 1
  (`/en-us/article/minecraft-<release>-pre-release-<k>` or
  `...-release-candidate-<k>`), and the first, i.e. highest-numbered, path present
  in the listing wins.
- **Item building** (the loop of `generateRss`): the first ten manifest entries,
  in manifest order, each become an item titled with the id, linked to
  `https://minecraft.net` + the article path (or `""`), with the article's
  preferred tile image, else its default tile image, as the picture.

Modules: `Wrappers` (Option), `Decimal` (digit strings), `Pattern` (the two regular
expressions), `Classifier`, `Resolver`, `FeedBuilder`, and `Scenarios` (worked
examples). The fetched manifest and article listing are the parameters
`versions` and `articles`. The `Feed` object is reduced to the sequence of items
added to it.

Articles are resolved from one bulk listing that is fetched once and searched in
memory; no URL is requested per candidate path. An id that matches both patterns is
a pre-release, so an id of the form `X-rcN` is a release candidate only when it has
no `-pre<digit>` match. `src/index.ts` schedules a single rebuild, 15 minutes after
start, not a repeating one.

## Model

| member | source | states |
|---|---|---|
| Pattern.DigitRunEnd | src/feed.ts:68 | `(\d+)` takes the longest run of digits: everything up to the returned end is a digit, and the character there is not |
| Pattern.Exec | src/feed.ts:68-75 | when `exec` matches, group 1 is non-empty and group 2 is a non-empty run of digits, so `parseInt` of it is defined |
| Pattern.SearchFindsFirstLongest | src/feed.ts:68 | the line-by-line search returns a match whose start is leftmost and whose group 1 is longest at that start, and returns none exactly when nothing matches |
| Pattern.ExecIsFirstLongest | src/feed.ts:68 | `exec` gives `null` exactly when no start and end form a match; otherwise its groups are those of the leftmost, longest match |
| Pattern.ExecOfFirstLongest | src/feed.ts:68-70 | the groups of a known leftmost, longest match are what `exec` returns |
| Pattern.ExecOfSuffix | src/feed.ts:68-70 | an id `x + tag + d` (x non-empty without line terminators, d non-empty digits) splits back into group 1 = x and group 2 = d |
| Decimal.Render | src/feed.ts:100 | a number in a template literal is a non-empty digit string with no leading zero |
| Decimal.ValueOfRender | src/feed.ts:72 | `parseInt` of a rendered number gives the number back |
| Decimal.RenderOfValue | src/feed.ts:72 | rendering the value of a digit string without a leading zero gives the string back |
| Decimal.ValueBound | src/feed.ts:72 | `parseInt` of an n-digit group is below 10^n |
| Decimal.ValueIgnoresLeadingZero | src/feed.ts:79 | `parseInt` ignores a leading zero of the digit group: `07` counts as 7 |
| Decimal.RenderInjective | src/feed.ts:100 | different numbers render differently |
| Classifier.ExtractType | src/feed.ts:64-83 | the result is a release exactly when the type is `release`; releases and snapshots keep the id; pre-releases and release candidates have a non-empty release shorter than the id |
| Classifier.ExtractTypeFollowsPatterns | src/feed.ts:68-82 | for non-release types: the pre pattern's leftmost, longest match decides if there is one (even when rc also matches), else the rc pattern's, else the entry is a snapshot with its id |
| Classifier.PreReleaseOfId | src/feed.ts:68-73 | a non-release id `X-preD` (X non-empty, no line terminator; D digits) is pre-release `value(D)` of X |
| Classifier.ReleaseCandidateOfId | src/feed.ts:75-80 | a non-release id `X-rcD` whose X has no pre match is release candidate `value(D)` of X |
| Resolver.ReplaceDots | src/feed.ts:90 | `replaceAll('.', '-')` keeps the length and turns exactly the dots into dashes |
| Resolver.NamedSlug | src/feed.ts:90 | a release's path is `/en-us/article/minecraft-java-edition-` and a snapshot's `/en-us/article/minecraft-snapshot-`, followed by the id with dots turned into dashes |
| Resolver.NamedSlugKindsDiffer | src/feed.ts:90 | a release's path is never a snapshot's, whatever the two ids |
| Resolver.CandidateSlugShape | src/feed.ts:100 | a probed path is `/en-us/article/minecraft-`, the release with dots as dashes and a dash, then `pre-release-` for a pre-release or `release-candidate-` for a release candidate, then the build number in decimal, and nothing else |
| Resolver.CandidateSlugKindsDiffer | src/feed.ts:100 | a pre-release's probed path is never a release candidate's, whatever the release and build numbers |
| Resolver.CandidateSlugInjective | src/feed.ts:100 | the paths probed for different build numbers are different |
| Resolver.FindByUrl | src/feed.ts:90 | `find` returns an article of the listing that has the path, and returns undefined exactly when no article has it |
| Resolver.FindByUrlIsFirst | src/feed.ts:90 | the article `find` returns sits at an index before which no article has the path: the first match in list order |
| Resolver.ProbeAtIsLookup | src/feed.ts:100-104 | probing build k finds an article of the listing with that build's path, and finds nothing exactly when no article has it |
| Resolver.Probe | src/feed.ts:96-114 | whatever the downward probe returns is an article of the listing |
| Resolver.ProbeFindsHighest | src/feed.ts:99-111 | a found article is the first one with the path of some build j, 1 <= j <= number, and no build above j up to number has an article |
| Resolver.ProbeNoneIff | src/feed.ts:99-114 | the probe returns undefined exactly when no build from number down to 1 has an article (always when number is 0) |
| Resolver.ArticleFor | src/feed.ts:86-116 | a resolved article is always an element of the listing |
| Resolver.ProbeDownward | src/feed.ts:96-114 | the loop returns what the downward probe specifies; it probes at most `number` paths, for number, number - 1, ... in that order, none when number is 0, all of them when nothing is found, and stops at the first hit |
| Resolver.FindArticle | src/feed.ts:86-116 | `findArticle` returns what the resolver specification gives, always an element of the listing |
| FeedBuilder.FixOrigin | src/feed.ts:118-120 | the absolute URL is the site origin followed by the relative path, which can be read back from it |
| FeedBuilder.FixOriginInjective | src/feed.ts:118-120 | different paths give different absolute URLs |
| FeedBuilder.Recent | src/feed.ts:129 | `slice(0, 10)` keeps min(10, n) entries, the first ones, in order |
| FeedBuilder.DisplayTile | src/feed.ts:155 | `preferred_tile ?? default_tile`: the preferred tile when there is one, else the default tile |
| FeedBuilder.MakeItem | src/feed.ts:148-156 | the item has the id as title and the release time as date; without an article the link is `""` and there is no id or image; with one, id and link are its path made absolute and the image is its display tile's image made absolute |
| FeedBuilder.ItemFor | src/feed.ts:145-156 | an item has the id as title and the release time as date; it has an id and an image exactly when the entry's article is found; the link is then that id, else `""`; the id is the found article's path and the image its display tile's image, both made absolute |
| FeedBuilder.GenerateItems | src/feed.ts:145-157 | the loop yields exactly min(10, n) items, item i being the item for manifest entry i |
| FeedBuilder.NamedEntryLinked | src/feed.ts:146-155 | a release or snapshot whose expected path is in the listing gets that path, made absolute, as link, and an image |
| Scenarios.ReleaseLinksToItsArticle | src/feed.ts:88-90 | release 1.20.1 with `/en-us/article/minecraft-java-edition-1-20-1` listed gets that article as link, its id as title, and an image |
| Scenarios.PreReleasesOf120 | src/feed.ts:68-72 | non-release ids 1.20-pre1 and 1.20-pre2 are pre-releases 1 and 2 of 1.20 |
| Scenarios.ReleaseCandidateSlug | src/feed.ts:100 | a release candidate of 1.20 is probed at build k under `/en-us/article/minecraft-1-20-release-candidate-` followed by k in decimal |
| Scenarios.PreReleaseFallsBack | src/feed.ts:99-111 | 1.20-pre2 with only the pre-release-1 article listed finds nothing at build 2, finds the article at build 1, and links to it |
| Scenarios.PreReleaseWithoutArticle | src/feed.ts:145-156 | 1.20-pre1 with no matching article gets an empty link, no id and no image |

## Left out

- The fetches of the version manifest and of the article listing (src/feed.ts:125, 133) are I/O; the model takes their results as the parameters `versions` and `articles` and trusts them to have the declared shapes.
- The `Feed` object of the `feed` package, its static metadata and its Atom and RSS serialisers (src/feed.ts:137-143, src/index.ts:9-10) are foreign code; the model keeps only the items passed to `addItem`.
- `new Date(releaseTime)` (src/feed.ts:151) is a library parser; the item keeps `releaseTime` as the manifest's string.
- The `console.warn` diagnostics are logging only; the paths the probe loop tries are exposed as the ghost out-parameter `probed` of `ProbeDownward`.
- All of `src/index.ts` (directory creation, file writes with ignored callbacks, the single 15-minute `setTimeout`) is filesystem and timer plumbing.
- Manifest fields other than the entries' id, type, url, time and releaseTime, article fields other than the path and the two tiles, and the tile fields `tile_size` and `image.content_type` are not read by the modelled code and are not kept.
- ProbeDownward: build numbers are unbounded naturals. In the source they are JavaScript doubles, so a digit group above 2^53 loses precision in `parseInt`, one above about 1.8e308 becomes `Infinity`, numbers from 1e21 on render in exponent form, and for numbers from 2^53 on `number--` can leave the value unchanged so the probe loop need not end; none of this is modelled.
- The regular-expression engine in general: only the two patterns `(.+)-pre(\d+)` and `(.+)-rc(\d+)` without flags are modelled.
