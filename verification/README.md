# Nexca front-end: post card, button and configuration-table checks in Dafny

This project models the small amount of logic in the Nexca publishing front-end that is not markup:

- **The post card** (`PostItem`). From a post record it derives the link, the two link wrappers, the card's class string, the image source and the optional footer (`post_item.dfy`, module `PostItem`).
- **The button's class string** (`Button`). It is driven by the `color` default, the `'btn-null'` sentinel and `removeDefaultStyle` (`button.dfy`, module `Button`).
- **The invariants the configuration tests check** over the per-country region tables, the theme table and the template catalog:
  - `map_data.dfy`, module `MapDataChecks`;
  - `themes.dfy`, module `ThemesChecks`;
  - `templates.dfy`, module `TemplatesChecks`.

  Each test block becomes a predicate that holds exactly when that test passes, and each test file's suite becomes their conjunction. The index loops become methods proved to compute their predicates. There are two exceptions:
  - The count-map test ('should contain each theme name only once') is the method `ThemesChecks.NamesCountedOnce`. It builds the count map with `CountThemeNames` and is proved to pass exactly when the Set-size test does.
  - The two Andorra blocks (`src/config/test/maps.test.tsx:81-88`) have no predicate. `MapDataChecks.AndorraEndsAtEight` takes their first two expectations as hypotheses and derives the third.

The JavaScript semantics these rely on are written out and not assumed:
- `||` and ternary truthiness (an empty string is falsy);
- template interpolation of `undefined` and `null`;
- `String.prototype.trim` and `Array.prototype.join` (`js_strings.dfy`). The same file defines `split` on one character. No component calls it: it is used to read class strings back into their classes in `PostItem.CardClassTokens` and `Button.ButtonClassPieces`;
- `parseInt` without a radix, `+` and `toString` on NaN and integers (`js_numbers.dfy`).

`uniqueness.dfy` relates the two uniqueness tests the repository uses: Set size equals length, and every count in a count map is 1. `wrappers.dfy` holds `Option`, which models a property that may be absent.

The post-link generator and the date formatter are outside this model. They enter as function parameters: `generate(id, title)` and `formatDate(createdAt)`.

Choices the model makes, read off the code and its doc comments:
- The template tests read `secid` and `name` from each catalog entry, so the model's template entry has those two fields.
- The footer date falls back to the placeholder when `createdAt` is absent and also when it is the empty string. The author fallback works the same way. The image source falls back when `imgurl` is empty. All three follow from `||` and the ternary treating "" as falsy.
- The two doc comments on `color = null` disagree:
  - `src/components/atoms/Button.tsx:31` says `null` applies no colour class;
  - `src/types/FormFiledType.tsx:12` says `null` means the default.

  The code does neither: a default parameter replaces only `undefined`, and the sentinel test is `=== 'btn-null'`. So `null` is written into the class as the text `null`. `Button.NullColorWrittenOut` states this.

## Model

| member | source | states |
|---|---|---|
| `PostItem.ResolveLink` | src/components/posts/PostItem.tsx:80 | the link is `post.link` when it is a non-empty string, otherwise the generator applied to the post's id and title |
| `PostItem.LinkWrapper` | src/components/posts/PostItem.tsx:85-106 | the wrapper is a plain container exactly when `disableLinks` is true. Its class is `className` alone, defaulting to "". Otherwise it is a link to the resolved link, titled with the post title, with class `trim(className + " " + linkClassName)` |
| `PostItem.DisabledWrapperIgnoresLink` | src/components/posts/PostItem.tsx:94-96 | with links disabled, neither the link nor `linkClassName` affects the wrapper, and its class is `className` unchanged |
| `PostItem.AnchorClassJoins` | src/components/posts/PostItem.tsx:97-104 | for class names with no outer white space (the empty default included), the trimmed link class is "className linkClassName"; when one of the two is empty it is the other one alone |
| `PostItem.ImageWrapper` | src/components/posts/PostItem.tsx:129-140 | the image wrapper is a container with class "block" when links are disabled, else a link to the resolved link with class "block" |
| `PostItem.TitleWrapper` | src/components/posts/PostItem.tsx:143-148 | the title wrapper is a container with "card-title line-clamp-2" when links are disabled. Otherwise it is a link whose class adds "group-hover:text-indigo-700" after one space |
| `PostItem.CardClasses` | src/components/posts/PostItem.tsx:109-124 | the card class string always starts with the six base classes joined by spaces. It is exactly that when the hover effect is disabled. Otherwise it is that, a space, and the four hover classes |
| `PostItem.CardClassList` | src/components/posts/PostItem.tsx:109-123 | the array literal: the six base classes, followed by the four hover classes spread in unless `disableHoverEffect` is true (`IsTrue`) |
| `PostItem.CardClassTokens` | src/components/posts/PostItem.tsx:109-124 | split on spaces, the card class string gives back the base classes in order, followed by the hover classes. `md:hover:scale-105` is among them exactly when `disableHoverEffect` is not true |
| `PostItem.ImageSource` | src/components/posts/PostItem.tsx:132 | the image source is `imgurl` when non-empty, else `/static/Image/logo.jpg` |
| `PostItem.FooterOf` | src/components/posts/PostItem.tsx:150-161 | the footer exists exactly when `postFooter` is true. Its date is the formatted `createdAt` when that is non-empty, else "2 hours ago". Its author is `author` when non-empty, else "unknown" |
| `PostItem.Derive` | src/components/posts/PostItem.tsx:79-166 | the whole card: its class string is `CardClasses`, its image source is `ImageSource` and its footer (date and author) is `FooterOf`. Image alt and title text are the title, and the description is passed through. Disabled links give two plain containers; enabled links give two links to the resolved link with the exact classes above |
| `Button.ColorPart` | src/components/atoms/Button.tsx:43-53 | the colour part is empty exactly for "btn-null" (or an empty class name). An omitted colour gives "btn-primary", `null` gives "null", and any other colour is kept verbatim |
| `Button.ColorWithDefault` | src/components/atoms/Button.tsx:43 | the default parameter `color = 'btn-primary'`: it replaces an omitted colour only, and keeps `null` and every named colour |
| `Button.ButtonClass` | src/components/atoms/Button.tsx:50-54 | with `removeDefaultStyle` the class is "" and the caller's class joined by a space. Otherwise it is "btn", the colour part and the caller's class, joined by single spaces |
| `Button.Render` | src/components/atoms/Button.tsx:41-59 | the rendered button carries the computed class and forwards every other prop unchanged |
| `Button.DefaultButtonClass` | src/components/atoms/Button.tsx:43-53 | with colour and `removeDefaultStyle` omitted, the class is "btn btn-primary " followed by the caller's class |
| `Button.NullColorWrittenOut` | src/components/atoms/Button.tsx:43-53 | an explicit `null` colour is neither defaulted nor suppressed: the class is "btn null " followed by the caller's class |
| `Button.RemovedStyleIgnoresColor` | src/components/atoms/Button.tsx:51-52 | with `removeDefaultStyle` the class is exactly " " + className, whatever the colour |
| `Button.RestDoesNotAffectClass` | src/components/atoms/Button.tsx:46-55 | replacing the forwarded props does not change the class, and they reach the button unchanged |
| `Button.ButtonClassPieces` | src/components/atoms/Button.tsx:50-54 | for class names without spaces, the styled class splits into exactly "btn", the colour part and the caller's class. The unstyled one splits into "" and the caller's class |
| `JsStrings.Trim` | src/components/posts/PostItem.tsx:101 | the trimmed string is no longer than the input and has no white space at either end |
| `JsStrings.Or` | src/components/posts/PostItem.tsx:80 | the logical-OR fallback (`post.link` or the generated link) on a string that may be `undefined`: `a` when it is truthy (defined and non-empty, `Truthy`), else the fallback |
| `JsStrings.Interpolate` | src/components/atoms/Button.tsx:53 | `${v}` on a string that may be `undefined`: the string itself, or the text "undefined" |
| `JsStrings.Join` | src/components/posts/PostItem.tsx:124 | `parts.join(sep)`: the parts in order with `sep` between neighbours; "" for no parts and the part itself for one |
| `JsStrings.TrimPadded` | src/components/posts/PostItem.tsx:101 | trimming white space around a string with no outer white space gives exactly that string |
| `JsStrings.SplitJoin` | src/components/posts/PostItem.tsx:124 | for a non-empty list of parts, none of which contains `sep`, splitting `parts.join(sep)` on `sep` gives the parts back |
| `JsStrings.JoinSplit` | src/components/posts/PostItem.tsx:124 | joining the pieces of a split with the same separator gives the string back |
| `JsNumbers.ParseInt` | src/config/test/maps.test.tsx:43-44 | `parseInt(s)` with no radix: leading white space skipped, one `-`/`+` sign read, a `0x`/`0X` prefix selects radix 16, the longest run of digits after that is the value, and no digit at all gives NaN |
| `JsNumbers.ToString` | src/config/test/maps.test.tsx:58 | `n.toString()`: "NaN" for NaN, else the decimal numeral with a `-` for negatives and no leading zero |
| `JsNumbers.ParseIntOfIntToString` | src/config/test/maps.test.tsx:53-58 | `parseInt` reads back exactly the integer whose decimal text `toString` wrote |
| `JsNumbers.ParseIntOfToString` | src/config/test/maps.test.tsx:53-58 | `parseInt(n.toString())` is `n` for every number the tests produce, NaN included |
| `JsNumbers.LeadingZeroNotCanonical` | src/config/test/maps.test.tsx:57-63 | a numeral of two or more characters starting with "0" is never the text that `toString` writes for its parsed value |
| `Uniqueness.Column` | src/config/test/maps.test.tsx:32 | `rows.map(field)` has one value per row, and the value at each index is that row's property |
| `MapDataChecks.Secids` | src/config/test/maps.test.tsx:32 | the mapped secid column has one entry per table entry, in order |
| `MapDataChecks.NotEmpty` | src/config/test/maps.test.tsx:19-21 | 'should not be empty': holds exactly when the table has at least one entry |
| `MapDataChecks.HasSecidAndName` | src/config/test/maps.test.tsx:23-29 | 'should contain with secid and name properties': every entry has a `secid` and a `name` |
| `MapDataChecks.UniqueSecids` | src/config/test/maps.test.tsx:31-39 | 'should have unique secid values': the Set of the secid column is as large as the table |
| `MapDataChecks.ParsedSecid` | src/config/test/maps.test.tsx:43 | `parseInt(item.secid)`, which is NaN for an `undefined` secid |
| `MapDataChecks.InOrder` | src/config/test/maps.test.tsx:41-50 | 'should have secid values in correct order': each parsed secid is less than the next one (`Less` is false when either side is NaN), so any NaN fails in a table of two or more entries; a table of fewer than two entries passes |
| `MapDataChecks.Sequential` | src/config/test/maps.test.tsx:52-64 | 'should have sequential secid values': the table is non-empty (indexing `[0]` of an empty one throws) and entry i's secid is the text of `parseInt(first secid) + i` |
| `MapDataChecks.RegionSuitePasses` | src/config/test/maps.test.tsx:13-66 | all five tests of `validateMapDataArray` pass |
| `MapDataChecks.ConsecutiveSecids` | src/config/test/maps.test.tsx:52-64 | the corrected sequence test: `Sequential`, and also the first secid parses to a number |
| `MapDataChecks.ValidRegionTable` | src/config/test/maps.test.tsx:13-66 | the corrected suite: the five tests with `ConsecutiveSecids` in place of `Sequential` |
| `MapDataChecks.CheckOrder` | src/config/test/maps.test.tsx:41-50 | the index loop passes exactly when each parsed secid is below the next, with NaN comparing false |
| `MapDataChecks.CheckSequence` | src/config/test/maps.test.tsx:52-64 | the index loop passes exactly when the table is non-empty and the entry at index i has the text of first + i as its secid |
| `MapDataChecks.ConsecutiveParsed` | src/config/test/maps.test.tsx:52-64 | in a table of consecutive secids, entry i parses to first + i |
| `MapDataChecks.ConsecutiveImpliesInOrder` | src/config/test/maps.test.tsx:41-64 | a table of consecutive secids passes the order test |
| `MapDataChecks.InOrderIncreasing` | src/config/test/maps.test.tsx:41-50 | in an ordered table the parsed secid at i is below the one at j for every i < j |
| `MapDataChecks.InOrderImpliesUnique` | src/config/test/maps.test.tsx:31-50 | an ordered table has pairwise distinct secids, so the Set-size test passes |
| `MapDataChecks.ConsecutiveImpliesUnique` | src/config/test/maps.test.tsx:31-64 | consecutive implies ordered, and ordered implies unique |
| `MapDataChecks.SuiteOnTwoOrMoreIsValid` | src/config/test/maps.test.tsx:19-64 | a table of two or more entries that passes all five tests has consecutive numeric secids |
| `MapDataChecks.ConsecutiveLast` | src/config/test/maps.test.tsx:53-63 | in a table of consecutive secids, the last secid is first + length − 1, written in decimal |
| `MapDataChecks.LeadingZeroFailsSequence` | src/config/test/maps.test.tsx:57-63 | any secid of two or more characters starting with "0" makes the sequence test fail |
| `MapDataChecks.AndorraEndsAtEight` | src/config/test/maps.test.tsx:79-90 | a sequential table that starts at "2" and has 7 entries ends at "8" |
| `MapDataChecks.NaNSecidsPassSequence` | src/config/test/maps.test.tsx:52-64 | two entries with secid "NaN" pass the sequence test yet fail the order and uniqueness tests |
| `MapDataChecks.NaNTablePassesSuite` | src/config/test/maps.test.tsx:13-66 | a single entry with secid "NaN" passes all five tests but is not a valid table of consecutive secids |
| `ThemesChecks.ThemeNames` | src/config/test/themes.test.tsx:21 | the mapped name column has one entry per theme, in order |
| `ThemesChecks.HasElevenThemes` | src/config/test/themes.test.tsx:8-10 | 'should contain 11 theme configuration objects': the table has exactly 11 entries |
| `ThemesChecks.NoExtraProperties` | src/config/test/themes.test.tsx:12-17 | 'should not contain any extra properties': every entry's key list is exactly `['name', 'activate']`, in that order |
| `ThemesChecks.NamesUniqueBySet` | src/config/test/themes.test.tsx:20-25 | 'should have no duplicate theme names': the Set of names is as large as the name list |
| `ThemesChecks.AllCountsOne` | src/config/test/themes.test.tsx:35-38 | every count stored in the count map is 1 |
| `ThemesChecks.ThemesSuitePasses` | src/config/test/themes.test.tsx:3-41 | the themes suite: 11 entries, every key list `['name', 'activate']` and no repeated name by the Set test. The count-map test is left out of the conjunction because `NamesCountedOnce` proves it agrees with the Set test |
| `ThemesChecks.CountThemeNames` | src/config/test/themes.test.tsx:28-33 | after the `forEach`, the count map has exactly the theme names as keys, each mapped to its number of occurrences |
| `ThemesChecks.NamesCountedOnce` | src/config/test/themes.test.tsx:27-38 | the count-map test passes exactly when the Set-size test passes, and exactly when no two themes share a name |
| `ThemesChecks.SuiteMeansElevenDistinctNames` | src/config/test/themes.test.tsx:8-25 | a table that passes the suite has 11 distinct theme names |
| `TemplatesChecks.TemplateSecids` | src/config/test/tempaltes.test.tsx:13 | the mapped secid column has one entry per template, in order |
| `TemplatesChecks.HasFiveTemplates` | src/config/test/tempaltes.test.tsx:8-10 | 'should be contain 5 template objects': the catalog has exactly 5 entries |
| `TemplatesChecks.UniqueSecids` | src/config/test/tempaltes.test.tsx:12-16 | 'should have unique secid values': the Set of secids is as large as the secid list |
| `TemplatesChecks.FirstIsDefault` | src/config/test/tempaltes.test.tsx:18-21 | 'should have the first template as default': the catalog is non-empty and its first entry has secid "1" and name "default" |
| `TemplatesChecks.TemplatesSuitePasses` | src/config/test/tempaltes.test.tsx:3-22 | the templates suite: 5 entries, unique secids, and the first entry is secid "1", name "default" |
| `TemplatesChecks.UniqueSecidsIffDistinct` | src/config/test/tempaltes.test.tsx:12-16 | the Set-size test passes exactly when no two templates share a secid |
| `TemplatesChecks.DefaultSecidNotReused` | src/config/test/tempaltes.test.tsx:8-21 | in a catalog that passes the suite, no template after the first has secid "1" |
| `Uniqueness.SetSizeIffDistinct` | src/config/test/themes.test.tsx:20-25 | `new Set(s).size === s.length` holds exactly when no value of `s` repeats |
| `Uniqueness.Elements` | src/config/test/maps.test.tsx:33 | `new Set(s)`: the set of the values that occur in `s` |
| `Uniqueness.SetSizeMatches` | src/config/test/maps.test.tsx:33-38 | `new Set(s).size === s.length`, the uniqueness test the map, theme and template suites share |
| `Uniqueness.CountsOneIffDistinct` | src/config/test/themes.test.tsx:27-38 | every value of `s` occurs exactly once exactly when no value of `s` repeats |
| `Uniqueness.SetSizeIffCountsOne` | src/config/test/themes.test.tsx:20-38 | the Set-size test and the count-is-one test agree on every column |

## Findings

| source | as written | input that shows it | evidently intended | confidence | as-written member | corrected member |
|---|---|---|---|---|---|---|
| src/config/test/maps.test.tsx:52-64 | each secid is compared with `(parseInt(first secid) + i).toString()`. When the first secid is not a number, that text is "NaN" at every index | `[{ secid: 'NaN', name: 'x' }]` passes all five region tests. `[{ secid: 'NaN' }, { secid: 'NaN' }]` passes the sequence test | the secids are the decimal numerals of consecutive integers. The corrected predicate also requires the first secid to parse as a number, and `ConsecutiveImpliesUnique` proves it implies the order and uniqueness tests | high, not executed | `MapDataChecks.NaNTablePassesSuite` | `MapDataChecks.ConsecutiveImpliesUnique` |

## Left out

- JSX rendering, `next/image`, `next/link`, React component mechanics and the vitest `describe`/`it`/`expect` runner: the model keeps the derived values and the pass/fail predicates, not the markup, the test runner or the assertion messages.
- The post-link generator and the date formatting (`toLocaleDateString`): they are parameters, so nothing is stated about their output beyond which one is used.
- The image `width`/`height` literals and the other fixed presentation attributes: these are floating-point presentation constants.
- The contents of the region, theme and template tables: those files are not part of this model, so the checks are stated over every table the entry types can hold. Those types are narrower than the JavaScript values, as the following lines say.
- The 'should be an array' tests and `toBeTypeOf('object')`: tables are sequences of records in the model, so these hold by construction.
- JavaScript number precision: integers are unbounded. `parseInt` results beyond 2^53 and the exponent notation `toString` uses from 1e21 upward are not modelled.
- `lastSecid` at src/config/test/maps.test.tsx:54 is computed and never used. It cannot throw once the table is non-empty, so the model has no counterpart for it.
- The theme entry's `activate` function is opaque: only its presence among the keys is modelled. The theme table is not part of this model; the model chooses to take theme names as strings.
- The `AllowedColors` union that restricts `color` to `btn-…` names is not available. `color` is any string, which is why the empty string also gives an empty colour part.
- `MapDataChecks.CheckOrder` and `MapDataChecks.CheckSequence` return at the first failing pair or index, as `expect` throws there. They report only pass or fail, not which index failed.
- `MapDataChecks.HasSecidAndName`: an absent property and a property present with the value `undefined` are both `None`. `toHaveProperty` passes on the second, so an entry such as `{ secid: undefined, name: 'x' }` passes the property test in the code but not in the model. For `secid` the suite's verdict is the same either way, because an `undefined` secid fails the sequence test. For `name` it is not: nothing else reads `name`, so `[{ secid: '1', name: undefined }]` passes all five tests in the code, while the model's `RegionSuitePasses` rejects it.
- `PostItem.Post`: `imgurl` is a plain string, as the type at `src/components/posts/PostItem.tsx:16` declares it, although the doc comment at line 15 speaks of a missing image. A missing `imgurl` is not modelled; the empty string falls back to the logo.
- `TemplatesChecks.TemplateEntry`: `secid` and `name` are plain strings, so a template entry without either property, which `RegionEntry` can express, is not modelled.
