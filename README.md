# renumerar — a Dafny model of the Trello list renumbering Power-Up

The console script of this Power-Up numbers the visible card titles of a
Trello list as `01. `, `02. `, … in their current order, dropping any old
number in front of a title first. The change is on screen only and is not
saved to Trello. This project models the logic of `App.tsx`:

- **The console script** (`renumberTrelloList`). The page offers it for copying.
  It asks for a list name and finds the first list whose trimmed, lower-cased
  header equals the lower-cased name. It then rewrites every card title of
  that list in place as `label + ". " + cleaned title`.
  - The *cleaned title* is the title with the leading `[\d\s.-]+` run removed,
    then trimmed.
  - The *label* is `(i + 1).toString().padStart(2, '0')`.
  - Module `Text` holds the character classes, the cleaning and `trim`.
  - Module `Ordinal` holds the label and reads it back as a number.
  - Module `ConsoleScript` holds the renumber pass (an in-place loop over an
    array of titles), the list search and the whole script.
- **The Power-Up registration** (module `Url`). The page derives its base
  URL from its own address by dropping the query, the fragment and the file
  name. The list action opens `index.html?listId=…&listName=…` under that
  base in a modal.
- **The mount effect** (module `AppMode`). When the page is opened with a
  non-empty `listId`, it switches from setup mode to modal mode and records
  the list's id and name. The name defaults to `Lista`. The React state is
  the class `AppView`, whose method `LoadParams` updates it in place.

Module `Optional` holds the `Option` type. It stands for JavaScript's
`null`/`undefined`: a dismissed prompt, a missing header, a missing query
parameter.

The modal's button writes no card titles: it only animates a progress bar
and then posts `close` to the host (App.tsx lines 105-116). So the only
renumbering modelled is the console script's.

## Model

| member | source | states |
|---|---|---|
| Text.StripNumbering | App.tsx:76 | `rawText.replace(/^[\d\s.-]+/, '')`: the title from the stop of `SkipNumbering` on; `StripNumberingAfterPrefix` shows a numbering prefix does not change it. |
| Text.Trim | App.tsx:65 | `String.prototype.trim` (also applied at line 76): `trimStart` then `trimEnd` over the JavaScript whitespace set; characterized by `TrimmedEnds`. |
| Text.Clean | App.tsx:76 | `rawText.replace(/^[\d\s.-]+/, '').trim()`; characterized by `CleanShape`, `CleanIsInfix`, `CleanEmptyIff` and `CleanIdempotent`. |
| Text.ToLower | App.tsx:65 | `toLowerCase()` applied character by character (ASCII letters only); `ToLowerIdempotent` states it is idempotent. |
| Text.SkipNumbering | App.tsx:76 | The greedy `^[\d\s.-]+` match stops at the first character outside the class: everything before it is in the class and the character at the stop is not. |
| Text.TrimmedEnds | App.tsx:65 | `trim` leaves a string that is empty or whose first and last characters are not whitespace. |
| Text.CleanShape | App.tsx:76 | A cleaned title is empty, or starts with a character other than a digit, whitespace, `.` or `-` and does not end with whitespace. |
| Text.CleanIsInfix | App.tsx:76 | The cleaned title is the contiguous piece of the title that starts right after the numbering prefix, and only whitespace follows it: cleaning deletes and never rewrites. |
| Text.CleanEmptyIff | App.tsx:76 | A title cleans to the empty string exactly when all its characters are digits, whitespace, `.` or `-`. |
| Text.CleanIdempotent | App.tsx:76 | Cleaning a cleaned title changes nothing. |
| Text.StripNumberingAfterPrefix | App.tsx:76 | A prefix made only of numbering characters does not change what the strip leaves. |
| Text.ToLowerIdempotent | App.tsx:65 | Lower-casing twice is lower-casing once. |
| Ordinal.Decimal | App.tsx:77 | `toString` of a natural number is a non-empty digit string, of one digit exactly when the number is below 10, and without a leading zero unless the number is 0. |
| Ordinal.DecimalRoundTrip | App.tsx:77 | Reading the decimal rendering of a number gives the number back. |
| Ordinal.PadStart | App.tsx:77 | `padStart` gives the larger of `width` and the length of `s`, keeps `s` as a suffix and fills only the front. |
| Ordinal.Label | App.tsx:77 | `(i + 1).toString().padStart(2, '0')`; characterized by `LabelShape` and `LabelValue`. |
| Ordinal.LabelShape | App.tsx:77 | The label of position `i` is the decimal of `i + 1` with one `0` in front exactly when `i + 1 < 10`; its length is `max(2, digits)`, so it is never truncated. |
| Ordinal.LabelValue | App.tsx:77 | A label reads back as its one-based position, so the labels of a list are distinct. |
| ConsoleScript.NewName | App.tsx:77 | `newName`: the label of the position, `". "`, then the cleaned title; characterized by `CleanNewName`, `NewNameOrdinal` and `NewNameFixedPoint`. |
| ConsoleScript.Renumbered | App.tsx:73-81 | The titles the `forEach` pass leaves, one new name per card in order; `RenumberTitles` is proved to compute it, and `RenumberedFixedPoint`, `RenumberedReadBack` and `RenumberedDependsOnCleaned` characterize it. |
| ConsoleScript.CleanNewName | App.tsx:76-77 | A new name starts with `label + ". "`, and cleaning it gives back the cleaned title. |
| ConsoleScript.NewNameOrdinal | App.tsx:77 | The number at the start of a new name is the card's one-based position. |
| ConsoleScript.NewNameFixedPoint | App.tsx:76-77 | Renaming an already renamed card at the same position changes nothing. |
| ConsoleScript.RenumberedFixedPoint | App.tsx:73-81 | Running the pass on its own output, in the same order, leaves every name as it is. |
| ConsoleScript.RenumberedDependsOnCleaned | App.tsx:73-81 | Two lists whose titles clean to the same strings get the same new names. |
| ConsoleScript.RenumberedReadBack | App.tsx:73-81 | The `k`-th new name cleans to the `k`-th cleaned title and carries the ordinal `k + 1`. |
| ConsoleScript.RenumberTitles | App.tsx:73-81 | The in-place loop leaves the array holding, in order, one new name per old title: position `k` gets `label(k) + ". " + clean(title k)`. |
| ConsoleScript.HeaderMatches | App.tsx:64-65 | The `find` predicate: the header exists and `header.innerText.trim().toLowerCase() === listName.toLowerCase()`; `FindTargetIgnoresCase` and `UntrimmedNameMatchesNothing` state its consequences. |
| ConsoleScript.FindFrom | App.tsx:63-66 | The search from a position returns the first matching header at or after it, and nothing exactly when none there matches. |
| ConsoleScript.FindTarget | App.tsx:63-66 | The target list is the first one whose header, trimmed and lower-cased, equals the lower-cased typed name; there is none exactly when no header matches. A missing header never matches. |
| ConsoleScript.UntrimmedNameMatchesNothing | App.tsx:65 | The typed name is not trimmed, so a name that starts or ends with whitespace matches no list. |
| ConsoleScript.FindTargetIgnoresCase | App.tsx:65 | Typing the name in lower case finds the same list. |
| ConsoleScript.RunScript | App.tsx:57-84 | A dismissed or empty answer changes nothing. A name no header matches gives the "not found" outcome with that name. Otherwise exactly the target list is renumbered and the count is its number of cards; every other list is unchanged. |
| Url.Location | App.tsx:11 | `window.location.href.split('?')[0].split('#')[0]`; characterized by `LocationCut`. |
| Url.BaseUrl | App.tsx:11 | `baseUrl`: the location with `replace(/[^\/]*$/, '')` applied; characterized by `BaseUrlShape` and `BaseUrlIdempotent`. |
| Url.LocationCut | App.tsx:11 | `split('?')[0].split('#')[0]` is the longest prefix of the address without `?` or `#`. |
| Url.BaseUrlShape | App.tsx:11 | The base URL is a prefix of the address. It holds no `?` or `#`, is empty or ends with `/`, and no `/` follows it in the location, so only the file name is dropped. |
| Url.BaseUrlIdempotent | App.tsx:11 | Deriving the base URL of a base URL changes nothing. |
| Url.ModalUrl | App.tsx:23 | The template `${baseUrl}index.html?listId=${list.id}&listName=${encodeURIComponent(list.name)}`; `QueryOfModalUrl` and `ModalUrlRoundTrip` characterize what the modal page reads from it. |
| Url.QueryOf | App.tsx:48 | `window.location.search` without its `?`: the text after the first `?` up to the fragment; characterized by `QueryOfPlain`. |
| Url.ParseQuery | App.tsx:48 | `new URLSearchParams(search)`: split at `&`, empty pieces skipped, each piece split at its first `=` and decoded; `SplitJoin` and `ParseTwoPairs` characterize it. |
| Url.Get | App.tsx:49 | `params.get(name)`: the value of the first pair with that name, `null` when none; used by `SelectedList` and `ModalUrlRoundTrip`. |
| Url.SplitJoin | App.tsx:48 | Splitting a query at `&` loses nothing: the pieces join back to the string and none holds the separator. |
| Url.QueryOfPlain | App.tsx:48 | `location.search` of an address `path?query` with no `#` is `query`, when the path holds no `?`. |
| Url.QueryOfModalUrl | App.tsx:23 | The query of a modal URL is `listId=<id>&listName=<encoded name>`, when the base holds no `?` or `#`, and neither the id nor the encoded name holds `#`. |
| Url.ParseTwoPairs | App.tsx:48 | `URLSearchParams` reads `n1=v1&n2=v2` as the two decoded pairs, in order, when no part holds `&` and no name holds `=`. |
| Url.ModalUrlRoundTrip | App.tsx:23 | The modal URL carries both values through `URLSearchParams`: `listId` reads back as the id and `listName` as the name. This holds when the base holds no `?` or `#`; the id holds no `&` or `#` and decoding leaves it unchanged (the id is not encoded; Trello's hexadecimal ids meet this); decoding leaves the names `listId` and `listName` unchanged; the encoded name holds no `&` or `#`; and decoding undoes the encoding. |
| AppMode.SelectedList | App.tsx:48-52 | The page selects a list exactly when `listId` is present and non-empty. The id is kept and the name is `listName` when that is non-empty, `Lista` otherwise. |
| AppMode.AppView.LoadParams | App.tsx:47-53 | With a non-empty `listId` the effect sets modal mode and that list; otherwise it leaves the state alone. Modal mode always goes with list data. |
| AppMode.AppView.constructor | App.tsx:41-42 | The initial state `useState('setup')` and `useState(null)`: setup mode, no list data, invariant `Valid` established. |
| AppMode.ListActionModal | App.tsx:20-25 | The `t.modal` request: title `'Ordenando: ' + list.name`, the modal URL on the base URL, height 400; `ListActionOpensModal` shows the page it opens selects the same list. |
| AppMode.ListActionOpensModal | App.tsx:19-26 | The page opened by the list action switches to modal mode for that same list, with `Lista` for an empty name. This holds when the id is non-empty, holds no `&` or `#` and decoding leaves it unchanged; decoding leaves `listId` and `listName` unchanged; the encoded name holds no `&` or `#`; and decoding undoes the encoding. The base URL meets the round trip's condition by `BaseUrlShape`. |

## Left out

- The React rendering, the copy button with its clipboard write and `copied` flag, and every text shown on screen are not modelled; they hold no logic beyond display.
- The modal's button is not modelled: `setInterval` animates `progress` to 100 and `postMessage` closes the modal. It changes no card.
- `TrelloPowerUp.initialize`, the `typeof` guard and the `try`/`catch` around it are left out. So are the `t.list` and `t.modal` promises: the list is an input, and the modal request is a value (`AppMode.ListActionModal`).
- The DOM is replaced by values. `prompt` is an `Option<string>` input. `querySelectorAll` over lists and card titles becomes a sequence of headers and one array of titles per list. The `innerText || textContent || ""` fallback is taken as already resolved to one title string.
- The `alert` and `console.log` messages are not modelled; the script's outcome datatype records how the script ends.
- `toLowerCase` is modelled for ASCII letters only; Unicode case mapping is not modelled.
- `encodeURIComponent` and the percent-decoding of `URLSearchParams` are function parameters, not definitions. `Url.ModalUrlRoundTrip` assumes of them only what it needs. `URLSearchParams` is modelled as splitting at `&` and at the first `=` of each non-empty piece; the `+`-as-space rule is part of the decode parameter.
- Characters are Unicode scalar values, while JavaScript strings are UTF-16 code units. Every character the rules test for is in the Basic Multilingual Plane, so the rules read the same.
- `index.tsx`, `types.ts`, `components/CodeBlock.tsx` and `services/geminiService.ts` are not part of this model.
