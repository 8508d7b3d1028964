# price-scraper rate generator, modelled in Dafny

The generator loads a committed JSON template of exchange rates. It scrapes
bonbast.com for Iranian rial prices of currencies, gold and coins, and
fetches a CSV of crypto quotes in US dollars. It writes the prices into the
template's rate records and relinks every dollar price to the `usd`
record's local price. It then validates the result and writes it out with
a fresh timestamp. Everything lives in `main.py`.

Each module follows one stage of the program:

| module | file | stage |
|---|---|---|
| `Values`, `Dicts` | `values.dfy` | JSON values, rate records, and Python's insertion-ordered dicts as sequences of pairs |
| `Text` | `text.dfy` | `to_int_price` and `norm_key` |
| `BonbastParse` | `bonbast.dfy` | the top items, table rows and coin aliases of `parse_bonbast_html`, over an abstract page |
| `Resolution` | `resolution.dfy` | the name tables, `build_title_index` and the bonbast lookup chain |
| `Reconcile` | `reconcile.dfy` | `update_from_bonbast`, `update_from_crypto_csv` and `recompute_usd_relations` as methods of a `Payload` class |
| `Validation` | `validation.dfy` | `validate_payload` |
| `Generator` | `pipeline.dfy` | `scrape_bonbast`'s choice of result, and `main`'s order of passes, exit codes and merge of top-level keys |

Each imperative operation is a method with loops and invariants. It is
proved equal to a function of the state it started from: `ApplyBonbast`,
`ApplyCrypto`, `Recomputed`, `Validate`, `Parsed`, `TitleIndex`. The three
`Payload` methods run their loop over the rate set (`BonbastPass`,
`CryptoPass`, `RecomputePass`) and store the rates it returns. The
guarantees are lemmas about those functions:
- the key set is closed;
- only `price`, `usdPrice` and `change24h` change;
- the `usd` record's `usdPrice` becomes exactly 1;
- nothing changes without a `usd` anchor;
- the coin aliases have a fixed precedence;
- validation succeeds exactly when its conditions hold.

A rate set is an `order: seq<string>` of keys plus a `map<string, Entry>`,
which keeps the dict's iteration order. A record is a map from field names
to a small `Value` datatype, so an absent field and a field that is present
stay apart, and unknown fields pass through unchanged. Prices are exact
`real`s.

The bonbast names and crypto quotes arrive as sequences of pairs with
distinct names, in dict order. The lookup passes are stated for any resolver
function (`resolve: string -> Option<string>`). The methods use the resolver
built from the template's indexes (`BonbastResolver`, `CryptoResolver`).

A row name holding "Azadi" together with "Gera", a `½` or a `¼` glyph never
becomes "Azadi" (`BonbastParse.AzadiExcludesFractions`). Unless it holds
"Emami", it goes on to the Half, Quarter and Gram-and-Coin rules: with
"Half" it becomes the half coin (`BonbastParse.HalfCoin`), and it is kept
as it is only when none of them matches (`BonbastParse.UnmatchedKept`).

## Model

| member | source | states |
|---|---|---|
| `Text.ToIntPrice` | main.py:61-76 | `to_int_price`: None on the empty text or when no digit run is found, otherwise the integer the joined runs spell (its properties are the `ToIntPrice…` lemmas below) |
| `Text.TranslateDigit` | main.py:51-56 | a character maps to an ASCII digit exactly when it is a digit in ASCII, Persian or Arabic-Indic script; every other character is kept |
| `Text.RunsJoinToDigits` | main.py:69-74 | joining the runs `findall` returns gives exactly the digits of the text, and there is no run exactly when there is no digit |
| `Text.ToIntPriceDigits` | main.py:61-76 | the price is the integer spelled by all digits of the translated text in order; None when there is no digit or more than Python's 4300-digit conversion limit |
| `Text.ToIntPriceNone` | main.py:66-76 | None exactly when the text has no digit in any of the three scripts, or more than 4300 |
| `Text.ToIntPriceScriptInsensitive` | main.py:51-68 | translating the digits first does not change the price |
| `Text.ToIntPriceSeparatorInsensitive` | main.py:69-74 | removing any non-digit character (comma, space, letter) does not change the price |
| `Text.ToIntPriceSeparated` | main.py:69-74 | "12", any non-digit separator, "345" reads as 12345 |
| `Text.DigitsOfAcross` | main.py:69-73 | a non-digit between two runs of digits drops out of the joined digits |
| `Text.ToIntPriceCommaExample` | main.py:61-76 | "12,345" reads as 12345 |
| `Text.ToIntPricePersianExample` | main.py:61-76 | "۱۲,۳۴۵", in Persian digits, reads as 12345 too |
| `Text.ToIntPriceNoDigits` | main.py:66-71 | the empty text and "n/a" have no price |
| `Text.NormKey` | main.py:79-86 | `norm_key`: strip, lower-case, ZWNJ to space, `½`/`¼` to words, runs outside `a-z0-9` and then runs of whitespace to one space, strip (its properties are the `NormKey…` lemmas below) |
| `Text.ReplaceRunsShape` | main.py:85-86 | after `re.sub` of a class's runs with one space, class characters appear only as single spaces |
| `Text.NormKeyIsNormal` | main.py:79-86 | every key `norm_key` returns holds only `a-z`, `0-9` and single inner spaces, with no leading or trailing space |
| `Text.NormKeyFixesNormal` | main.py:79-86 | a text already in that normal form is its own key |
| `Text.NormKeyIdempotent` | main.py:79-86 | normalising twice equals normalising once |
| `Text.StripAround` | main.py:81 | `strip()` removes the whitespace before and after a word and nothing else |
| `Text.LowerEach` | main.py:81 | a text whose characters each lower-case to the matching character of another text lower-cases to that text |
| `Text.CollapseGap` | main.py:85-86 | a run of class characters between two words without any becomes a single space |
| `Text.NormKeyOfCased` | main.py:79-86 | a stripped text whose lower-case form is normal has that form as its key |
| `Text.NormKeyCaseExample` | main.py:81 | "US Dollar" normalises to "us dollar" |
| `Text.NormKeyJoinsWords` | main.py:79-86 | leading and trailing whitespace is dropped and whitespace between two words of `a-z0-9` becomes one space: "  us   dollar " normalises to "us dollar" |
| `BonbastParse.TopEntry` | main.py:146-158 | a top item yields its display name and price when its element exists and its text parses (`TopEntryCases`) |
| `BonbastParse.RowEntry` | main.py:161-190 | a row yields its coin-normalised name and price by its cell count (`RowEntryCases`) |
| `BonbastParse.CanonicalCoinName` | main.py:178-190 | the first of the five alias rules that matches the name, or the name itself (`FirstMatchWins`, `FirstMatchNone`, `EmamiFirst`, `HalfCoin`, `UnmatchedKept`) |
| `BonbastParse.Parsed` | main.py:136-192 | the top entries, then the row entries, written in turn into an insertion-ordered dict (`ParsedLookup`, `ParseBonbastHtml`) |
| `BonbastParse.ParseBonbastHtml` | main.py:136-192 | the loops over the top items and then the rows return the dict `Parsed`: top items written first, then row entries, each write replacing an earlier value of the same name in its place |
| `BonbastParse.ParsedLookup` | main.py:143-190 | no name appears twice; a name holds the price of the last row that produced it, or of its top item when no row did |
| `BonbastParse.RowEntryCases` | main.py:161-176 | only 4-cell rows (name cell 1, price cell 2) and 3-cell rows (cells 0 and 1) produce an entry, and only with a non-empty name and a parsable price; the name is coin-normalised |
| `BonbastParse.TopEntryCases` | main.py:146-158 | a top item is recorded exactly when its element exists and its text parses, under its fixed display name |
| `BonbastParse.FirstMatchWins` | main.py:179-188 | the alias is that of the first rule that matches |
| `BonbastParse.FirstMatchNone` | main.py:179-190 | a name no rule matches is kept |
| `BonbastParse.FirstMatchResult` | main.py:179-190 | the result is the name itself or the alias of some rule |
| `BonbastParse.EmamiFirst` | main.py:179-180 | a name containing "Emami" always becomes "Emami" |
| `BonbastParse.AzadiLacksMarkers` | main.py:181-182 | the alias "Azadi" carries none of the markers that exclude it, so it maps to itself |
| `BonbastParse.AzadiExcludesFractions` | main.py:181-182 | a name with "Azadi" and "Gera", "½" or "¼" never becomes "Azadi" |
| `BonbastParse.HalfCoin` | main.py:179-184 | a name with "Half" that fails the Emami rule and, in any of its ways, the Azadi rule becomes "½ Azadi" |
| `BonbastParse.UnmatchedKept` | main.py:178-190 | a name matching none of the five rules is unchanged |
| `Resolution.TitleIndex` | main.py:323-332 | the `norm_key` of each non-empty field of a record of the kind, mapped to the last such key in rate order (`IndexByHas`, `TitleIndexLastWins`, `TitleIndexSound`) |
| `Resolution.BuildTitleIndex` | main.py:323-332 | the loop over the rates returns `TitleIndex` of the kind's titles |
| `Resolution.IndexByHas` | main.py:323-332 | a text is in the index exactly when some record of the kind has a non-empty field normalising to it |
| `Resolution.IndexByLastWins` | main.py:326-331 | each indexed text maps to the last such record in rate order |
| `Resolution.TitleIndexLastWins` | main.py:323-332 | both directions of membership, and last-wins, for the `norm_key` index |
| `Resolution.TitleIndexSound` | main.py:327-331 | every key the index yields is a record of the requested kind with a non-empty field that normalises to the looked-up text |
| `Resolution.TablesDisjoint` | main.py:308-320 | no name is in both the coin table and the top-item table |
| `Resolution.Resolve` | main.py:346-350 | the coin table, then the top-item table, then the title index, then the `fa` index, the first hit winning (`ResolveTablesFirst`, `ResolveTitleBeforeFa`, `ResolveSound`) |
| `Resolution.ResolveCrypto` | main.py:411 | a crypto name resolves through the crypto title index under `norm_key` (`TitleIndexSound`) |
| `Resolution.ResolveTablesFirst` | main.py:346 | a table name resolves through its table, whatever the indexes hold |
| `Resolution.ResolveTitleBeforeFa` | main.py:348-350 | a title match shadows any `fa` match |
| `Resolution.ResolveSound` | main.py:338-350 | outside the tables, a name resolves only to a currency record whose title or `fa` normalises like the name, and is unresolved when no record does |
| `Reconcile.ApplyBonbast` | main.py:345-357 | the bonbast writes add no key and keep every record an object |
| `Reconcile.CountResolved` | main.py:342-357 | at most one record is updated per input name |
| `Reconcile.ApplyBonbastPerKey` | main.py:345-357 | each record's price is that of the last name resolving to it; a record no name resolves to is untouched |
| `Reconcile.LastPriceResolved` | main.py:345-356 | a price written to a record comes from a name that resolves to it |
| `Reconcile.BonbastOnlyPrice` | main.py:335-357 | keys kept; only `price` changes, and only to an integer; a changed record is a table key or a currency record whose title or `fa` matches some bonbast name |
| `Reconcile.BonbastPass` | main.py:336-357 | the loop over the bonbast names returns `ApplyBonbast` of the rates and `CountResolved` as `updated`; `updated + skipped` is the number of names |
| `Reconcile.CryptoPass` | main.py:398-424 | the loop over the quotes returns `ApplyCrypto` with `L = UsdLocal` and `CountFound` as `updated`; `updated + skipped` is the number of quotes |
| `Reconcile.RecomputeLoop` | main.py:373-389 | against a non-zero anchor, the loop over the records returns `RecomputeAll` of the rates |
| `Reconcile.RecomputePass` | main.py:364-394 | on any readable rate set, the early return without an anchor, or the loop over the records and then the `gold_ounce` fix, returns `Recomputed` of the rates |
| `Reconcile.Payload.constructor` | main.py:92-97 | the payload holds the loaded stamp and rates |
| `Reconcile.Payload.UpdateFromBonbast` | main.py:335-359 | the rates become `ApplyBonbast` of the old rates under the template's indexes; stamp and key order unchanged; `updated` counts the resolved names and `updated + skipped` equals the number of names |
| `Reconcile.UsdLocal` | main.py:399-403 | the local dollar price is `usd`'s price when it is present and non-zero, and 1.0 otherwise; never zero |
| `Reconcile.CryptoWrite` | main.py:421-423 | a found record gets `usdPrice = u`, `change24h = c`, `price = u * L`, and no other field changes |
| `Reconcile.CryptoWriteTwice` | main.py:421-423 | a second write of a quote replaces the first |
| `Reconcile.ApplyCrypto` | main.py:410-424 | the crypto writes add no key, keep records objects, and never fill an empty record |
| `Reconcile.CountFound` | main.py:407-424 | at most one record is updated per quote |
| `Reconcile.ApplyCryptoPerKey` | main.py:410-424 | each non-empty record holds the last quote resolving to it; others are untouched |
| `Reconcile.LastQuoteFound` | main.py:410-424 | the quote a record holds is one whose name resolves to it |
| `Reconcile.ApplyCryptoTouched` | main.py:410-424 | at most `usdPrice`, `change24h` and `price` change, and a changed record carries the write of some quote resolving to it |
| `Reconcile.CryptoTouchesOnlyCrypto` | main.py:405-424 | against the crypto title index, only crypto records change and no key is added |
| `Reconcile.Payload.UpdateFromCrypto` | main.py:397-426 | the rates become `ApplyCrypto` of the old rates with `L = UsdLocal`; `updated` counts the quotes found and `updated + skipped` equals the number of quotes |
| `Reconcile.AnchorPrice` | main.py:364-371 | there is an anchor exactly when `usd` has a present, numeric, non-zero price, and it is that price |
| `Reconcile.GoldFixRecord` | main.py:392-394 | `gold_ounce` keeps its price and gets `usdPrice` with `usdPrice * u == price`; nothing else changes |
| `Reconcile.GoldFix` | main.py:392-394 | the `gold_ounce` fix adds no key |
| `Reconcile.RecomputeAll` | main.py:373-389 | the per-record loop adds no key |
| `Reconcile.RecomputeRecord` | main.py:373-389 | one step of the per-record loop (`RecomputeUsdIsOne`, `RecomputeCurrencyInDollars`, `RecomputeCryptoLocal`) |
| `Reconcile.UsdGettable` | main.py:366 | a `usd` entry that is truthy is an object, since `.get` is called on it |
| `Reconcile.Recomputable` | main.py:366-389 | what the recompute reads without raising: `usd` always; with an anchor, every record as an object and every converted currency price as a number |
| `Reconcile.Recomputed` | main.py:362-394 | on any rate set the recompute can read, it adds no key, and the records are all objects afterwards exactly when they were before |
| `Reconcile.RecomputedAt` | main.py:373-394 | with an anchor, each record is that of the loop, then fixed when it is `gold_ounce` |
| `Reconcile.RecomputeFrame` | main.py:362-394 | on any readable rate set: no anchor, no change, whatever the records hold; otherwise only `price` and `usdPrice` change, a currency without `usdPrice` gains none, and other kinds are untouched (`gold_ounce` aside) |
| `Reconcile.RecomputeUsdIsOne` | main.py:379-381 | with an anchor, a currency-kind `usd` gets `usdPrice = 1` |
| `Reconcile.RecomputeCurrencyInDollars` | main.py:382-384 | every other currency with `usdPrice` gets `usdPrice * u == price` (a missing price counting as 0), nothing else changed |
| `Reconcile.RecomputeCryptoLocal` | main.py:386-389 | a crypto record with a numeric `usdPrice` gets `price = usdPrice * u`, nothing else changed |
| `Reconcile.RecomputeGoldOunce` | main.py:392-394 | `gold_ounce` with a numeric price and a `usdPrice` field ends with that price in dollars |
| `Reconcile.Payload.RecomputeUsdRelations` | main.py:362-394 | on any readable rate set, the rates become `Recomputed` of the old rates; stamp and key order unchanged |
| `Reconcile.BonbastKeepsReadable` | main.py:356 | bonbast writes only integers, so the later passes' `float()` reads of `usd` and currency prices still succeed |
| `Reconcile.CryptoKeepsConvertible` | main.py:421-423 | crypto writes only numbers, so currency prices still read as numbers |
| `Validation.RecordProblem` | main.py:444-454 | a record has no problem exactly when it is an object with an allowed or empty kind, a unit of at least 1 (absent meaning 1) and a numeric price |
| `Validation.Validate` | main.py:436-456 | missing when empty, too small below 80 records, otherwise the first record problem in rate order, or OK (`ValidateOk`, `ValidateSize`, `FirstProblemIsFirst`) |
| `Validation.ValidatePayload` | main.py:436-456 | the early-exit loop returns `Validate` |
| `Validation.FirstProblemNone` | main.py:443-456 | no record problem is reported exactly when every record is valid |
| `Validation.ValidateOk` | main.py:436-456 | OK exactly when there are at least 80 records and every one is valid |
| `Validation.ValidateSize` | main.py:437-441 | empty fails as missing, below 80 fails as too small, and from 80 on only the records decide |
| `Validation.SizeBoundary` | main.py:440-441 | 79 records fail the size check, 80 pass it |
| `Validation.FirstProblemIsFirst` | main.py:443-455 | the reported problem is that of a record all of whose predecessors are valid |
| `Validation.RecordProblemCases` | main.py:444-454 | each check's reason names the record and its offending value |
| `Generator.ScrapeBonbast` | main.py:243-262 | the HTTP result when it has at least 15 names, else the browser's result when the fallback is on and it did not raise, else nothing (`ScrapeBonbastChoice`) |
| `Generator.ScrapeBonbastChoice` | main.py:243-262 | an HTTP result of at least 15 names is used whatever the browser gives; otherwise the browser's result, or nothing when both failed |
| `Generator.AfterBonbast` | main.py:469-475 | the pass runs only on names, and then needs objects; the keys are the template's, records stay objects exactly when they were, and a readable `usd` price and numeric currency prices stay so |
| `Generator.PassesSucceed` | main.py:469-486 | each pass that runs finds every record an object, and the crypto pass finds a `usd` price it can convert |
| `Generator.AfterCrypto` | main.py:477-486 | the pass runs only on quotes; the keys are the template's, records stay objects exactly when they were, and numeric currency prices stay numeric |
| `Generator.Completes` | main.py:469-489 | the two passes finish, and the recompute can read what they leave |
| `Generator.Reconciled` | main.py:469-489 | after the three passes the keys are the template's, and the records are all objects exactly when the template's were |
| `Generator.PassesKeepMetadata` | main.py:469-486 | the two passes change no field but `price`, `usdPrice` and `change24h` |
| `Generator.ReconciledKeepsMetadata` | main.py:469-489 | after all three passes each record differs from the template's only in `price`, `usdPrice` and `change24h`, and a record that is not an object is unchanged |
| `Generator.PassesNeedObjects` | main.py:469-489 | a template with a record that is not an object completes only with no names, no quotes and no anchor, and is then left as it is |
| `Generator.NumericTemplatesComplete` | main.py:469-489 | a template of objects with a numeric `usd` price and numeric currency prices completes whatever the sources return |
| `Generator.Run` | main.py:463-513 | `main` as a value: exit 2 without a template; otherwise the reconciled rates are validated, failing with the reason or written with the clock, the source and the extras (`RunExitCode`, `RunWritten`) |
| `Generator.RunPasses` | main.py:469-493 | the payload ends with `Reconciled` rates, the template's key order, the clock's time and the fixed source |
| `Generator.Extras` | main.py:511-513 | the template's top-level entries in file order, minus the three the writer sets (`ExtrasSpec`, `ExtrasAppend`) |
| `Generator.MergeExtras` | main.py:511-513 | the merge loop returns `Extras` of the template's top level |
| `Generator.Generate` | main.py:463-519 | `main` returns exactly the outcome `Run` describes |
| `Generator.RunExitCode` | main.py:463-519 | exit 2 exactly when the template is missing; otherwise exit 0 exactly when the reconciled rates have at least 80 valid records; no other code |
| `Generator.RunWrittenShape` | main.py:495-505 | a written object holds the clock's time, the fixed source and the validated reconciled rates |
| `Generator.RunWritten` | main.py:463-513 | a written payload comes from a template of objects, keeps its keys and order, holds at least 80 valid records, and each record differs from the template's only in `price`, `usdPrice` and `change24h` |
| `Generator.RunRejectsNonObjects` | main.py:463-498 | a template with a record that is not an object ends in a validation failure, exit 3 |
| `Generator.RunWithoutData` | main.py:471-489 | with no bonbast names and no quotes, the rates written are the template's, recomputed |
| `Generator.UsdIsOne` | main.py:469-489 | with a usable `usd` price after the two passes, the reconciled `usd` currency has `usdPrice = 1` |
| `Generator.ExtrasSpec` | main.py:511-513 | the extras are exactly the template's entries whose key is not `fetchedAtMs`, `source` or `rates` |
| `Generator.ExtrasAppend` | main.py:511-513 | extraction distributes over concatenation, so file order is kept |
| `Generator.ExtrasKeysDistinct` | main.py:511-513 | the extras keep the template's keys distinct |
| `Generator.ExtrasDistinct` | main.py:501-513 | the written object's keys (three stamped ones, then the extras) are distinct |

## Left out

- Network and browser access are not modelled: `http_get`, `scrape_bonbast_fast`, `scrape_bonbast_selenium` and `fetch_crypto_csv`. There are two reasons: they are I/O, and the CSV reading relies on Python's `csv` and `float()`. The scrapers' results and the quotes are parameters. `ScrapeBonbast` receives what the two scrapers returned, with `None` when one raised.
- BeautifulSoup is not modelled. The page is a map from element id to stripped text, plus the sequence of table rows as cell texts. Tables nested inside other tables, which `find_all` would visit twice, are not represented.
- `load_template`, the file reads and writes, JSON formatting, `time.time()` and every `print` are left out because they are I/O. The template arrives as a `Template` value, and the clock as `nowMs`. `load_template` coerces the old stamp with `int()` and `str()`. `int()` raises on a `fetchedAtMs` that is a string other than an integer string (even "12.5"), or a list or an object, and truncates a fractional number. Neither the crash nor the truncation is modelled: `Template.fetchedAtMs` is already an integer. `main` overwrites both values later.
- Runs that crash are not modelled. `Run` and `Generate` require `Completes`: each pass that runs can read what it is given. This means the bonbast and crypto passes see only objects, the crypto pass sees a numeric `usd` price, and the recompute runs on a truthy `usd` that is an object. With an anchor, the recompute also sees only objects and numeric prices for the currencies it converts. It is stated on the rate set each pass actually receives. So a template whose `eur` price is null but gets written by bonbast is covered, and so is a template with a non-numeric `usd` price and no quotes.
- `Recomputable`: the `price` of a currency converted by the recompute must be a JSON number. Python's `float()` would also accept a numeric string such as "12.5"; runs that depend on that are not modelled.
- The crypto pass reads `usd`'s price with `float()`. A numeric string there would convert in Python; here it must be a number (`UsdReadable`).
- Non-string `title` and `fa` values are not indexed. Python would index `str(v)`, e.g. the text "123" for an integer title. The records' `kind` must likewise be a JSON string to match.
- Python's full Unicode `str.lower()` is not modelled. Only the characters that lower into `[a-z0-9]` are mapped. Every other character is kept, which cannot change a key, since `norm_key` turns it into a space anyway.
- `Text.MaxStrDigits`: the 4300-digit limit on `int()` of a decimal string is the default of Python 3.11 and later, and of the 3.7.14, 3.8.14, 3.9.14 and 3.10.7 security releases. Older interpreters have no limit, and `PYTHONINTMAXSTRDIGITS` or `sys.set_int_max_str_digits` can change it; the model fixes it at the default.
- Floating-point rounding and `float` formatting are not modelled: prices, `usdPrice` and `change24h` are exact reals.
- The order of fields inside a record is not modelled, and a record is a map. A field added by a pass is appended in Python.
- The `updated`/`skipped` counters are returned, not printed.
- The passes do not write into the record objects in place. Each loop builds the new rate map, and the `Payload` method stores it once at the end. Records are values here, so no other reference can observe the difference.

