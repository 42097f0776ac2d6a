# CekOmbak forecast classification and normalisation, in Dafny

CekOmbak is a client-side dashboard for a public maritime forecast feed from
BMKG, Indonesia's meteorological agency. Almost all of it renders the page. The
decisions it makes about the data are three small pure string functions, and
this project models and proves those:

- **`getSafetyStatus`** (module `Safety`, `safety.dfy`). It turns a free-text wave
  category into one of three tiers: safe ("Aman"), caution ("Waspada") or
  danger ("Bahaya"). It also returns the colour's style class names. It
  lowercases the category and tests for substrings in order: "tenang" (calm)
  or "rendah" (low) first, then "sedang" (moderate). Anything else is danger.
- **`windToDegrees`** (module `Wind`, `wind.dfy`). A fixed table of 20
  Indonesian and English direction names gives 12 distinct bearings. The key
  is the input lowercased and trimmed. A miss gives 0.
- **`parseBMKGDate`**, up to the `Date` constructor (module `DateUtils`,
  `date_utils.dfy`). It rewrites the feed's `"YYYY-MM-DD HH:MM UTC"` into ISO
  8601 with two JavaScript `String.replace` calls on string patterns. Each call
  replaces only the first occurrence.

Module `Text` (`text.dfy`) models the JavaScript string built-ins these use:
`toLowerCase`, `trim`, `includes`, and `replace` with a string pattern and a
replacement without `$`. `Text.IndexOf` is the first-occurrence search that
`replace` makes. It covers ASCII only.

Three points about the code are worth stating, because a reader might expect
otherwise:

- A 16-point compass rose has 16 bearings, but the direction table has 20
  keys and only 12 bearings: 0, 22.5, 45, 90, 112.5, 135, 180, 202.5, 225,
  270, 315 and 337.5. No key gives 67.5, 157.5, 247.5 or 292.5
  (`Wind.NoMissingBearings`). No English key gives a secondary-intercardinal
  bearing (`Wind.NoEnglishSecondary`).
- The date rewrite never rejects input. Without the `" UTC"` suffix, for
  example, the time comes out with no seconds and no `Z`
  (`DateUtils.MissingSuffix`). Whether `new Date` then accepts the string is
  up to the JavaScript runtime.
- The code's comments gloss the categories in English ("Calm and Low",
  "Moderate", src/App.tsx:7 and 19). The tests themselves look for the
  Indonesian words "tenang", "rendah" and "sedang".

`label` is a reserved word in Dafny, so the record's `label` field is called
`labelText` here. A JavaScript `number` result is a Dafny `real`, so 22.5 and
the other bearings are exact.

## Model

| member | source | states |
|---|---|---|
| `Text.Lower` | src/App.tsx:5 | `toLowerCase` keeps the length of its input |
| `Text.LowerSpec` | src/App.tsx:5 | every capital A-Z becomes its lowercase letter and every other character is kept |
| `Text.LowerIdempotent` | src/App.tsx:5 | lowercasing twice is the same as lowercasing once |
| `Text.Trim` | src/App.tsx:54 | `trim` never lengthens its input, and neither end of its result is whitespace |
| `Text.TrimSpec` | src/App.tsx:54 | `trim` returns a slice of its input with only whitespace cut off on each side, and neither end of the result is whitespace |
| `Text.TrimPadded` | src/App.tsx:54 | whitespace added on either side of a string does not change its `trim` |
| `Text.Contains` | src/App.tsx:8-20 | `includes` finds the empty string and the whole string in any string, and finds nothing longer than the string |
| `Text.IndexOf` | src/utils/dateUtils.ts:9-10 | the first-occurrence search `replace` makes: the index found is an occurrence of the pattern with no earlier one, and no index is found exactly when the pattern does not occur |
| `Text.ReplaceFirst` | src/utils/dateUtils.ts:9-10 | `replace` with a string pattern and a `$`-free replacement substitutes the first occurrence only; with no occurrence it returns the input unchanged; the new length is the old length minus the pattern's plus the replacement's |
| `Text.ReplaceFirstAt` | src/utils/dateUtils.ts:9-10 | once the first occurrence is known, the result of `replace` is fixed by it |
| `Safety.Classify` | src/App.tsx:5-31 | the ordered tests split all categories into three: safe exactly when the lowercased text contains "tenang" or "rendah", caution exactly when it contains "sedang" and neither of those, danger otherwise |
| `Safety.StatusFor` | src/App.tsx:9-39 | each tier's record carries that tier's colour name and Indonesian label, and its four class names are "glow-", "ring-…/30", "text-" and "bg-…/10" around that colour |
| `Safety.GetSafetyStatus` | src/App.tsx:4-40 | total; safe/"Aman" exactly when the lowercased category contains "tenang" or "rendah"; caution/"Waspada" exactly when it contains "sedang" and neither of those; danger/"Bahaya" exactly when it contains none of the three |
| `Safety.StyleFollowsColor` | src/App.tsx:9-38 | in every returned record the four class names are "glow-", "ring-…/30", "text-" and "bg-…/10" around the colour |
| `Safety.TiersDistinct` | src/App.tsx:9-39 | the three tiers have different colours, different labels and so different records |
| `Safety.CaseInsensitive` | src/App.tsx:5 | the status of a category equals the status of its lowercased form |
| `Safety.SafeTakesPriority` | src/App.tsx:8-20 | a category naming both a safe term and "sedang" is safe, because the safe test comes first |
| `Safety.ExtraWordsNeverRaiseSeverity` | src/App.tsx:5-31 | because every test is a substring test, text added before or after a category never makes its status more severe |
| `Safety.CalmAndLowAreSafe` | src/App.tsx:8-16 | "Tenang" and "Rendah", as the feed capitalises them, are "Aman" |
| `Safety.ModerateIsCaution` | src/App.tsx:20-28 | "Sedang" is "Waspada" |
| `Safety.HighIsDanger` | src/App.tsx:31-39 | "Tinggi" (high) falls through both tests to "Bahaya" |
| `Safety.MixedCategoryIsSafe` | src/App.tsx:8-20 | "Rendah - Sedang" is "Aman" |
| `Wind.WindTable` | src/App.tsx:44-53 | every bearing in the table is one of the twelve listed ones and lies in [0, 337.5] |
| `Wind.NormalizeKey` | src/App.tsx:54 | the lookup key `direction.toLowerCase().trim()` is never longer than the direction and has no whitespace at either end |
| `Wind.NormalizeKeyIdempotent` | src/App.tsx:54 | normalising a key that is already normalised changes nothing |
| `Wind.WindToDegrees` | src/App.tsx:43-55 | always one of the twelve bearings and within [0, 337.5]; 0 whenever the lowercased, trimmed input is not a key |
| `Wind.TableKeysFound` | src/App.tsx:44-54 | every key of the table, given as written, yields its listed bearing |
| `Wind.EasternNames` | src/App.tsx:45-49 | bearings 0 to 180 as listed; the Indonesian and English names of one direction agree |
| `Wind.WesternNames` | src/App.tsx:50-52 | bearings 202.5 to 337.5 as listed, e.g. "barat laut" and "northwest" are both 315; "north-northwest" and "south-southwest" are not keys |
| `Wind.NoEnglishSecondary` | src/App.tsx:44-53 | every key giving 22.5, 112.5, 202.5 or 337.5 is one of the four Indonesian names; no English key gives a secondary-intercardinal bearing |
| `Wind.CaseInsensitive` | src/App.tsx:54 | the bearing of a name equals the bearing of its lowercased form |
| `Wind.PaddingIgnored` | src/App.tsx:54 | whitespace around a name does not change its bearing |
| `Wind.NoMissingBearings` | src/App.tsx:44-54 | 67.5, 157.5, 247.5 and 292.5 are never returned |
| `Wind.FeedNorthwest` | src/App.tsx:52-54 | "Barat Laut", capitalised as in the feed, gives 315 |
| `Wind.FeedNorth` | src/App.tsx:45-54 | "Utara" gives 0 |
| `Wind.UnknownDirection` | src/App.tsx:54 | a name the table lacks ("Berubah-ubah") falls back to 0 |
| `DateUtils.FirstSpaceToT` | src/utils/dateUtils.ts:9 | step one keeps the length, and leaves a string without a space unchanged |
| `DateUtils.FirstSpaceIs` | src/utils/dateUtils.ts:9 | step one writes 'T' over the first space only; every character before and after it is unchanged |
| `DateUtils.ToIsoString` | src/utils/dateUtils.ts:8-10 | the two-step rewrite is total and preserves length |
| `DateUtils.NoSpaceUnchanged` | src/utils/dateUtils.ts:9-10 | an input without a space comes back unchanged |
| `DateUtils.WellFormedRewrite` | src/utils/dateUtils.ts:2-10 | for a date D and a time T without spaces, `D + " " + T + " UTC"` becomes `D + "T" + T + ":00Z"` |
| `DateUtils.MissingSuffix` | src/utils/dateUtils.ts:9-10 | without the " UTC" suffix, `D + " " + T` becomes `D + "T" + T`, with no seconds and no `Z`, and no error is raised |
| `DateUtils.FeedExample` | src/utils/dateUtils.ts:2-4 | "2026-01-08 23:34 UTC" becomes "2026-01-08T23:34:00Z" |
| `DateUtils.BmkgBecomesIso` | src/utils/dateUtils.ts:1-10 | every string in the feed's layout becomes an ISO 8601 UTC string with zero seconds, the same date, and the same hour and minute |

## Left out

- Rendering in the `App` component, its loading and error states, and its `data.data[0]` indexing (src/App.tsx:57-310) are UI.
- The wind-bar width `Math.min((wind_speed_max / 50) * 100, 100)` (src/App.tsx:225) is floating-point presentation arithmetic.
- `new Date(isoString)` (src/utils/dateUtils.ts:12) and `new Date(data.issued)` (src/App.tsx:133) are not modelled. Whether a date is valid is decided by the JavaScript runtime. The model stops at the ISO string. In the source, `parseBMKGDate` is not called from src/App.tsx.
- `formatToIndonesian` (src/utils/dateUtils.ts:18-27) depends on `Intl` locale and time-zone data.
- Wind.WindToDegrees: the table is exactly its 20 literal keys. A JavaScript object also inherits prototype properties, so keys such as `constructor` would make `map[key] || 0` return a non-number. That quirk is not modelled.
- Text.Lower, Text.TrimSpec: `toLowerCase` and `trim` are modelled on ASCII only. Unicode case mapping is not modelled. Neither is the full Unicode whitespace set of `trim`, which here is space, tab, line feed, carriage return, vertical tab and form feed.
- Text.ReplaceFirst: `$` patterns in the replacement (`$&`, `$$` and the like) are not expanded, so it stands for JavaScript `replace` only when the replacement contains no `$`. Both replacements in `parseBMKGDate` ("T" and ":00Z", src/utils/dateUtils.ts:9-10) contain no `$`.
- `fetchMaritimeData` (src/api/bmkgClient.ts) is network I/O.
- The react-query hook and its five-minute `staleTime` (src/hooks/useMaritimeData.ts) are caching managed by the library.
- src/types/maritime.ts has type declarations only, with no behaviour. tailwind.config.js is build configuration.
