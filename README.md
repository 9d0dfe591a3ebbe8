# Tongbrekers: the history stores, share links, reply handling and page handlers

This project models, in Dafny, the logic under the "generate a joke with Gemini"
pages of the tongbrekers site: the tongbrekers, condoleances, destructieve
draaiboeken, excuses, fobieën and hopeloze haiku's. It covers four pieces.

- **History stores.** Each store keeps its items newest first in one localStorage
  slot. `save…` puts an item in front and keeps fifty. `delete…` filters by id.
  `get…` reads `[]` from a missing or corrupt slot. A second slot holds the
  Gemini API key, and `hasApiKey` tests whether a key is present.
  - `HistoryStore.Store` is a class whose `slots` map is what localStorage holds.
  - A failed write is the parameter `writeOk`. When it is false, the method
    returns false and changes nothing.
  - `StoreKeys` builds the six stores with their own keys.
  - Only the haiku store tests the key without trimming it.
- **Share links.** A token is `encodeURIComponent(btoa(encodeURIComponent(payload)))`.
  The haiku link leaves out the outer layer.
  - `encodeURIComponent` and `decodeURIComponent` are modelled over UTF-16 code
    units. Characters are encoded as UTF-8 (RFC 3629) and written as `%XY` escapes
    (section 2.1 of RFC 3986).
  - `btoa` and `atob` follow the base64 alphabet of section 4 of RFC 4648, and
    `atob` follows the forgiving-base64 decoding of the HTML standard.
  - JSON is an abstract codec whose parser is a left inverse of its printer.
  - Proved: the round trip, the token's alphabet, and when encoding gives `''`.
- **Reply handling in the services.** Every `generate…` function is a pure
  function from the key, the inputs and the reply of `fetch` to the request it
  would send and to a `Success` or `Failure` outcome. Each one:
  - checks the key and the input first;
  - maps the HTTP status to the 401, 429 or "API fout" message;
  - takes the text of the first part and trims it;
  - strips quotes, fobie code fences or parses fobie JSON, depending on the service;
  - builds the label maps and the haiku prompt option.
- **Page handlers.** Each page is a class:
  - `CondoleancesPage`, `FobieenPage`, `ExcuusExMachinaPage`,
    `DestructieveDraaiboeken`, `HopelozeHaikusPage`, and the `ApiKeyInput` key form.
  - The fields are the page's state. The store is a separate object the page writes.
  - The methods are the mount effect and the handlers. They merge a shared item,
    generate and prepend an item, delete by id, save the key, and reopen the key
    input on a rate-limit message.
  - Service replies, identifiers, timestamps and random draws are parameters.
  - While every write succeeds, the store's list stays the front of the list the page shows (`InStep`).

Strings are sequences of UTF-16 code units (`JsStrings.JsString`), so lone
surrogates exist. This is how `encodeURIComponent` can throw, and the encoders
then return `''`.

## Model

| member | source | states |
|---|---|---|
| JsStrings.Trim | js/gemini.js:133 | `trim`: the result neither starts nor ends with white space, and it is empty exactly when the input is blank |
| JsStrings.TrimSlice | js/gemini.js:133 | `trim` only removes white space at the two ends; what remains is one slice of the input |
| JsStrings.TrimIdempotent | js/gemini.js:133 | trimming twice is trimming once |
| JsStrings.TrimUnpadded | js/gemini.js:133 | a text that starts and ends with a visible unit is left as it is |
| JsStrings.IncludesInfix | src/pages/CondoleancesPage.tsx:76 | `includes(sub)` holds of every text of the form `a + sub + b` |
| JsStrings.IncludesAt | src/pages/CondoleancesPage.tsx:76 | `includes(sub)` holds only where `sub` occurs at some position |
| JsStrings.Decimal | js/gemini.js:98 | the status in the message is written as decimal digits with no leading zero |
| JsStrings.DecimalValue | js/gemini.js:98 | reading those digits back gives the status |
| JsStrings.LeadCodePoint | src/utils/url.ts:10 | the code point a string starts with, re-encoded in UTF-16, gives its first units; None exactly for an unpaired surrogate |
| JsStrings.NoSurrogatesWellFormed | src/utils/url.ts:10 | a string without surrogate units has no unpaired surrogate |
| Utf8.Encode | src/utils/url.ts:10 | a scalar value's UTF-8 octets: the length RFC 3629 gives, a lead octet announcing it, continuation octets after it |
| Utf8.Decode | src/utils/url.ts:22 | a multi-octet group is accepted only if it is the encoding of the scalar value it yields; overlong forms and surrogates are refused |
| Utf8.DecodeEncode | src/utils/url.ts:22 | every multi-octet encoding decodes to its scalar value |
| Utf8.DecodeIffEncoding | src/utils/url.ts:22 | a group decodes to a scalar value exactly when it is that value's encoding |
| UriComponent.Encode | src/utils/url.ts:10 | `encodeURIComponent` never shortens its input; EncodeSucceedsIffWellFormed, EncodeAlphabet and DecodeEncode state when it throws, what it writes and its inverse |
| UriComponent.EncodeSucceedsIffWellFormed | src/utils/url.ts:10-14 | `encodeURIComponent` throws exactly on a string with an unpaired surrogate |
| UriComponent.EncodeAlphabet | src/utils/url.ts:10 | its output holds only the unreserved units and `%` |
| UriComponent.EncodeAlnumAlphabet | src/utils/url.ts:10 | a string whose unreserved units are all letters and digits encodes to letters, digits and `%` |
| UriComponent.EncodeUnreserved | src/utils/url.ts:10 | a string of unreserved units encodes to itself |
| UriComponent.DecodeWithoutPercent | src/utils/url.ts:22 | a string without `%` decodes to itself |
| UriComponent.DecodeEncode | src/utils/url.ts:22 | `decodeURIComponent(encodeURIComponent(s)) == s` for every string without an unpaired surrogate |
| UriComponent.Decode | src/utils/url.ts:22 | `decodeURIComponent` never lengthens its input; the DecodeRejects… lemmas state when it throws |
| UriComponent.DecodeRejectsBadEscape | src/utils/url.ts:22 | a `%` anywhere that is not followed by two hexadecimal digits makes `decodeURIComponent` throw |
| UriComponent.DecodeRejectsStrayOctet | src/utils/url.ts:22 | an escaped continuation octet, or an octet no UTF-8 sequence starts with, makes it throw |
| UriComponent.DecodeRejectsShortGroup | src/utils/url.ts:22 | a lead octet without enough escaped continuation octets after it makes it throw |
| UriComponent.DecodeRejectsBadGroup | src/utils/url.ts:22 | escapes of an octet group that encodes no scalar value (overlong, surrogate, above 0x10FFFF) make it throw |
| Base64.Btoa | src/utils/url.ts:10 | `btoa` succeeds exactly when every unit fits in one octet; the output length is a multiple of four |
| Base64.Atob | src/utils/url.ts:22 | whatever `atob` returns is a binary string; AtobRefusesIff states exactly when it throws |
| Base64.AtobRefusesIff | src/utils/url.ts:22 | `atob` throws exactly when, after white space and padding are removed, one character is left over in the last group or a character lies outside the alphabet |
| Base64.AtobRejectsForeign | src/utils/url.ts:22 | a unit that is neither white space, `=` nor a base64 character makes `atob` throw |
| Base64.AtobRejectsStray | src/utils/url.ts:22 | a length without white space that leaves one stray character makes `atob` throw |
| Base64.AtobAcceptsAlphabet | src/utils/url.ts:22 | unpadded base64 characters with no stray character are accepted |
| Base64.BtoaAlphabet | src/utils/url.ts:10 | `btoa` writes only base64 characters and `=` |
| Base64.AtobBtoa | src/utils/url.ts:22 | `atob(btoa(s)) == s` for every binary string |
| ShareToken.Encode | src/utils/url.ts:7-15 | a non-empty token is at least as long as the payload; EncodeAlphabet, EncodeEmptyIff and DecodeEncode give its alphabet, when it is `''`, and its inverse |
| ShareToken.Decode | src/utils/url.ts:20-28 | a token without `%` passes the outer `decodeURIComponent` unchanged; DecodeEncode and DecodePercentDecodedToken give the round trips |
| ShareToken.EncodeInnerDefined | src/utils/haikuUrl.ts:9 | `btoa(encodeURIComponent(p))` never throws on a well-formed payload and yields base64 text |
| ShareToken.DecodeEncodeInner | src/utils/haikuUrl.ts:25 | `decodeURIComponent(atob(…))` undoes that inner layer |
| ShareToken.DecodeEncode | src/utils/url.ts:7-28 | the three-layer token of a well-formed payload decodes to the payload |
| ShareToken.DecodePercentDecodedToken | src/utils/url.ts:43-50 | the token as URLSearchParams hands it over, percent-decoded once, still decodes to the payload |
| ShareToken.EncodeAlphabet | src/utils/url.ts:10 | a token holds only ASCII letters, digits and `%` |
| ShareToken.EncodeEmptyIff | src/utils/url.ts:11-14 | the token is `''` exactly when the payload is empty or encoding throws |
| ShareToken.EncodeValue | src/utils/draaiboekUrl.ts:6-7 | with a lawful JSON codec the token of a value is never empty |
| ShareToken.DecodeEncodeValue | src/utils/draaiboekUrl.ts:4-22 | a JSON value survives its token, raw or percent-decoded once |
| CondoleanceUrl.EncodeCondoleance | src/utils/url.ts:7-15 | the token uses only letters, digits and `%`, and is `''` exactly for an empty or ill-formed text |
| CondoleanceUrl.DecodeCondoleance | src/utils/url.ts:20-28 | decoding the token of a well-formed text gives back the text |
| CondoleanceUrl.CreateShareUrl | src/utils/url.ts:33-37 | the URL is the base, `?c=`, then a token that decodes to the text |
| CondoleanceUrl.GetCondoleanceFromUrl | src/utils/url.ts:42-60 | None when `c` is missing or empty, decoding fails or the text is empty; otherwise the decoded text with the fresh id and timestamp |
| CondoleanceUrl.ShareRoundTrip | src/utils/url.ts:33-59 | a shared condoleance comes back with the same text under a fresh id and timestamp |
| DraaiboekUrl.EncodeDraaiboek | src/utils/draaiboekUrl.ts:4-12 | the token uses only letters, digits and `%`, and is non-empty under a lawful codec |
| DraaiboekUrl.DecodeDraaiboek | src/utils/draaiboekUrl.ts:14-22 | decoding the token of `(taak, draaiboek, moeilijkheidsgraad)` gives back those three fields, unchecked |
| DraaiboekUrl.CreateDraaiboekShareUrl | src/utils/draaiboekUrl.ts:24-28 | the URL is the base, `?d=`, then a token of the content fields only |
| DraaiboekUrl.GetDraaiboekFromUrl | src/utils/draaiboekUrl.ts:30-50 | None when `d` is missing or empty or decoding fails; otherwise the decoded fields with the fresh id and timestamp |
| DraaiboekUrl.ShareRoundTrip | src/utils/draaiboekUrl.ts:24-49 | a shared draaiboek comes back with the same content under a fresh id and timestamp |
| ExcuusUrl.EncodeExcuus | src/utils/excuusUrl.ts:4-12 | the token uses only letters, digits and `%`, and is non-empty under a lawful codec |
| ExcuusUrl.DecodeExcuus | src/utils/excuusUrl.ts:14-22 | decoding the token of `(situatie, excuus, lengte)` gives back those fields; `lengte` is not checked |
| ExcuusUrl.CreateExcuusShareUrl | src/utils/excuusUrl.ts:24-28 | the URL is the base, `?e=`, then a token of the content fields only |
| ExcuusUrl.GetExcuusFromUrl | src/utils/excuusUrl.ts:30-50 | None when `e` is missing or empty or decoding fails; otherwise the decoded fields with the fresh id and timestamp |
| ExcuusUrl.ShareRoundTrip | src/utils/excuusUrl.ts:24-49 | a shared excuus comes back with the same content under a fresh id and timestamp |
| FobieUrl.EncodeFobie | src/utils/fobieUrl.ts:4-12 | the token uses only letters, digits and `%`, and is non-empty under a lawful codec |
| FobieUrl.DecodeFobie | src/utils/fobieUrl.ts:14-22 | decoding the token of `(naam, beschrijving)` gives back both fields |
| FobieUrl.CreateFobieShareUrl | src/utils/fobieUrl.ts:24-28 | the URL is the base, `?f=`, then a token of `naam` and `beschrijving` only |
| FobieUrl.GetFobieFromUrl | src/utils/fobieUrl.ts:30-49 | None when `f` is missing or empty or decoding fails; otherwise the decoded fields with the fresh id and timestamp |
| FobieUrl.ShareRoundTrip | src/utils/fobieUrl.ts:24-48 | a shared fobie comes back with the same content under a fresh id and timestamp |
| HaikuUrl.CreateHaikuShareUrl | src/utils/haikuUrl.ts:3-14 | the current address with `h` set to `btoa(encodeURIComponent(JSON.stringify(data)))`, every other parameter and the base unchanged; None exactly when that encoding throws, so never under a lawful codec |
| HaikuUrl.GetHaikuFromUrl | src/utils/haikuUrl.ts:16-37 | Some exactly when `h` is present and non-empty and `atob`, `decodeURIComponent` and `JSON.parse` all succeed; then the parsed `text`, the flag false unless the parsed `extraHopeloosheid` is true, and the fresh id and timestamp |
| HaikuUrl.MissingFlagReadsFalse | src/utils/haikuUrl.ts:30 | a missing or false `extraHopeloosheid` reads as false |
| HaikuUrl.ShareRoundTrip | src/utils/haikuUrl.ts:3-32 | reading back a link made by `createHaikuShareUrl` yields the same text and flag |
| SearchParams.Get | src/utils/url.ts:44 | `get` yields the value of the first pair with that name, None when there is none |
| SearchParams.Set | src/utils/haikuUrl.ts:11 | `set` puts the pair in and brings in no other pair; GetAfterSet, GetOtherAfterSet and SetLeavesOnePair pin what `get` then reads |
| SearchParams.GetAfterSet | src/utils/haikuUrl.ts:11 | after `set`, `get` of that name yields the value set |
| SearchParams.GetOtherAfterSet | src/utils/haikuUrl.ts:11 | `set` leaves every other name's value alone |
| SearchParams.SetLeavesOnePair | src/utils/haikuUrl.ts:11 | after `set`, exactly one pair carries the name |
| BoundedHistory.Prepended | js/storage.js:19-22 | unshift then `slice(0, 50)`: the item in front, the old list after it, length `min(old + 1, 50)` |
| BoundedHistory.PrependedBelowCapacity | js/storage.js:19-22 | below fifty items nothing is lost |
| BoundedHistory.PrependedAtCapacity | src/utils/excuusStorage.ts:24 | at capacity only the oldest item goes; the 49 before it keep their order |
| BoundedHistory.SpliceIsSlice | src/utils/haikuStorage.ts:20-24 | the haiku store's `splice(50)` after unshift leaves the same list as the others' `slice(0, 50)` |
| BoundedHistory.WithoutId | js/storage.js:53 | the filter keeps no item with the deleted id and never grows the list |
| BoundedHistory.WithoutIdKeepsOthers | js/storage.js:50-55 | every other item is kept as often as before and in its order |
| BoundedHistory.WithoutAbsentId | src/utils/excuusStorage.ts:33-38 | deleting an id no item has leaves the list as it is |
| HistoryStore.ItemsIn | js/storage.js:36-43 | a missing or unparseable slot reads as `[]` |
| HistoryStore.Store.constructor | js/storage.js:6-10 | a store over the given slots, with its items key, a separate API-key key and its key test; the slots are left as they are |
| HistoryStore.Store.GetItems | js/storage.js:36-43 | `get…` returns the stored list, `[]` when the slot is missing or corrupt |
| HistoryStore.Store.Save | js/storage.js:16-30 | a successful save writes `Prepended(old list, item)` to the items slot only; a failed one returns false and changes nothing |
| HistoryStore.Store.Delete | js/storage.js:50-60 | a successful delete writes the filtered list; a failed one returns false and changes nothing |
| HistoryStore.Store.Clear | js/storage.js:65-73 | clearing removes the items slot, so the next read is `[]`; a failure changes nothing |
| HistoryStore.Store.GetApiKey | js/storage.js:93-100 | the stored key, None when there is none |
| HistoryStore.Store.SaveApiKey | js/storage.js:79-87 | the key is stored verbatim in its own slot; the item list is untouched |
| HistoryStore.Store.HasApiKey | js/storage.js:106-109 | a key is present and, for the trimming stores, not blank; the haiku store only asks for a non-empty key |
| StoreKeys.TongbrekerStore | js/storage.js:6-10 | the tongbreker store's keys, with a trimming key test |
| StoreKeys.CondoleanceStore | src/utils/storage.ts:3-7 | the condoleance store's keys, with a trimming key test |
| StoreKeys.DraaiboekStore | src/utils/draaiboekStorage.ts:3-7 | the draaiboek store's keys, with a trimming key test |
| StoreKeys.ExcuusStore | src/utils/excuusStorage.ts:3-7 | the excuus store's keys, with a trimming key test |
| StoreKeys.FobieStore | src/utils/fobieStorage.ts:3-7 | the fobie store's keys, with a trimming key test |
| StoreKeys.HaikuStore | src/utils/haikuStorage.ts:3-5 | the haiku store's keys, with a key test that does not trim |
| IdTemplate.GenerateId | js/storage.js:115-121 | each `x` becomes a drawn nibble in lower-case hex, each `y` one of `8 9 a b`, the rest of the template is kept |
| IdTemplate.GenerateIdShape | js/storage.js:115-121 | whatever is drawn, the id has 36 characters, dashes at 8, 13, 18 and 23, `4` at 14 and a variant digit at 19 |
| IdTemplate.GenerateIdOnto | js/storage.js:115-121 | every string of that shape is the id of some draws |
| ApiKey.ValidateApiKey | js/gemini.js:127-135 | a valid key trims to more than 30 units starting with `AIza`; ValidateApiKeyIff gives both directions |
| ApiKey.MatchesKeyTailIff | js/gemini.js:134 | `[a-zA-Z0-9_-]+$` matches exactly the non-empty strings of key characters |
| ApiKey.ValidateApiKeyIff | js/gemini.js:127-135 | a key is valid exactly when its trimmed form is longer than 30, starts with `AIza` and has only key characters |
| ApiKey.ValidKeyNotBlank | js/gemini.js:128-134 | a valid key is not blank and is longer than 30 |
| ApiKey.ValidateApiKeyTrimmed | js/gemini.js:133 | surrounding white space does not change the verdict |
| ApiKey.ShortKeyRejected | js/gemini.js:134 | a key of 30 units or fewer is rejected |
| GeminiReply.ErrorDetail | js/gemini.js:98 | the server's message when it is non-empty, else `Onbekende fout` |
| GeminiReply.StatusError | js/gemini.js:93-99 | 401 and 429 give their fixed messages; any other status gives `API fout: <status> - <detail>` |
| GeminiReply.StatusErrorClasses | js/gemini.js:93-99 | the three classes never share a message, in both directions |
| GeminiReply.StatusErrorReadable | js/gemini.js:98 | the status and the server's message can be read back from an "API fout" message |
| GeminiReply.FirstPartText | js/gemini.js:102-115 | a rejected fetch or a non-JSON body is an engine error; a failed status throws its message; otherwise the first part's text is trimmed, or there is no text |
| GeminiReply.StripQuotes | js/gemini.js:111 | at most one quote is removed at the start and one at the end; what is left is a slice of the text |
| GeminiReply.StripQuotesUnquoted | js/gemini.js:111 | a text with no quote at either end is unchanged |
| GeminiReply.StripQuotesQuoted | js/gemini.js:111 | a quoted text loses exactly its outer quotes |
| GeminiReply.StripQuotesNoRetrim | js/gemini.js:108-111 | white space inside the quotes is not trimmed again |
| GeminiReply.StripQuotesLoneQuote | js/gemini.js:111 | a lone quote is removed entirely |
| Services.Settle | js/gemini.js:105-118 | an extraction fault is rethrown, no usable candidate throws the service's own message, a text succeeds |
| Services.GenerateTongbreker | js/gemini.js:36-120 | an empty key throws `API key is required` and sends nothing; otherwise the reply is settled with quote stripping |
| Services.GenerateCondoleance | src/services/condoleance.ts:45-134 | as the tongbreker service, but the request blocks only high-probability harm |
| Services.GenerateLevensles | src/services/levensles.ts:31-112 | as the tongbreker service, but the content entry carries `role: 'user'` |
| Services.GenerateHaiku | src/services/haiku.ts:47-57 | the extra section is sent exactly when the flag is passed as true; the text is only trimmed |
| Services.LengteLabel | src/services/excuus.ts:71-75 | `lengteMap`: each length maps to its name in capitals |
| Services.ExcuusPrompt | src/services/excuus.ts:77-80 | the prompt holds the length's label and the quoted, untrimmed situatie |
| Services.GenerateExcuus | src/services/excuus.ts:60-66 | an empty key fails first, then a blank situatie; only then is the prompt sent |
| Services.GraadLabel | src/services/draaiboek.ts:103-107 | `moeilijkheidsgraadMap`: each level maps to its name in capitals, with spaces for dashes |
| Services.DraaiboekPrompt | src/services/draaiboek.ts:109-115 | the prompt holds the quoted taak and the level's label |
| Services.GenerateDraaiboek | src/services/draaiboek.ts:92-98 | an empty key fails first, then a blank taak; only then is the prompt sent |
| Services.LabelsDistinct | src/services/draaiboek.ts:103-107 | different lengths and different levels get different labels |
| Services.PreChecksIgnoreReply | js/gemini.js:37-39 | a failed pre-check sends nothing, so the outcome does not depend on the reply |
| Services.FailedStatusThrows | src/services/condoleance.ts:100-113 | every service fails with the classified status message, the same for all six |
| Services.SuccessTexts | src/services/excuus.ts:146-158 | tongbreker, condoleance and levensles return the trimmed text with quotes stripped; haiku, excuus and draaiboek return it trimmed only |
| FobieService.AsciiLower | src/services/fobie.ts:133 | the `i` flag: ASCII capitals read as lower case, nothing else changes |
| FobieService.DropOpeningFence | src/services/fobie.ts:133 | text without the ```` ```json ```` opening (any case of `json`) is kept; with it, the seven fence units go, and the newline after them exactly when there is one |
| FobieService.DropClosingFence | src/services/fobie.ts:133 | text not ending in ```` ``` ```` is kept; otherwise the three backticks go, and the newline before them exactly when there is one |
| FobieService.StripFences | src/services/fobie.ts:133 | both replacements never lengthen the text, and text with neither fence is kept |
| FobieService.StripFencesSlice | src/services/fobie.ts:133 | what is left after both replacements is one slice of the text |
| FobieService.StripFencesOfFenced | src/services/fobie.ts:133 | a `json` block, in any case of `json`, gives back its body |
| FobieService.StripFencesUnfenced | src/services/fobie.ts:133 | text without backticks at either end is parsed as it is |
| FobieService.Decide | src/services/fobie.ts:136-157 | an object with truthy `naam` and `beschrijving` is returned; the extractor is used only when the parse throws; anything else is the "no fobie" error |
| FobieService.GenerateFobie | src/services/fobie.ts:51-162 | key check, status classification, then the decision on the fence-stripped first part |
| FobieService.FallbackOnlyWhenParseThrows | src/services/fobie.ts:141-157 | valid JSON missing a field ignores the extractor and fails with the "no fobie" error |
| FobieService.FencedReplyAccepted | src/services/fobie.ts:130-140 | a fenced JSON reply with both fields yields exactly those fields |
| PageCommon.ActiveKey | src/pages/CondoleancesPage.tsx:26 | `apiKey \|\| envApiKey`: the stored key when it is truthy, else the build-time key, else none |
| PageCommon.Status429RateLimited | src/pages/CondoleancesPage.tsx:76 | the message of a 429 reply counts as a rate limit |
| PageCommon.Status401NotRateLimited | src/pages/CondoleancesPage.tsx:76 | the message of a 401 reply does not |
| PageCommon.ServerMessageRateLimited | src/pages/CondoleancesPage.tsx:76 | any other failed status counts when the server's message mentions 429 |
| PageCommon.NoLeadUnit | src/pages/CondoleancesPage.tsx:76 | a text in which the first unit of `sub` never occurs does not include `sub` |
| PageCommon.HasSameIff | src/pages/FobieenPage.tsx:34-36 | `some` finds a match exactly when one exists at some index |
| PageCommon.Merge | src/pages/FobieenPage.tsx:34-40 | a shared item goes in front unless an item with the same content is shown |
| PageCommon.MergeIdempotent | src/pages/FobieenPage.tsx:34-40 | merging the same shared item twice adds it at most once |
| PageCommon.WithoutIdConcat | js/storage.js:53 | filtering a concatenation filters each part |
| PageCommon.PrefixAfterPrepend | src/pages/FobieenPage.tsx:77-78 | after both lists take a new item, the stored list is still a prefix of the shown one |
| PageCommon.PrefixAfterDelete | src/pages/FobieenPage.tsx:94-97 | after both lists drop an id, the stored list is still a prefix of the shown one |
| CondoleancesPage.MergeShared | src/pages/CondoleancesPage.tsx:31-37 | the list is unchanged when a condoleance with the shared text exists; otherwise the shared one goes in front of the old list, which keeps its order and loses only what falls past fifty |
| CondoleancesPage.MergeSharedTwice | src/pages/CondoleancesPage.tsx:31-37 | opening a link to a text already shown, or the same link twice, leaves the list as it is |
| CondoleancesPage.CondoleancesPage.constructor | src/pages/CondoleancesPage.tsx:13-25 | the lists and keys the hook read, the query, and the key input closed |
| CondoleancesPage.CondoleancesPage.Mount | src/pages/CondoleancesPage.tsx:28-45 | merge the shared condoleance and clear the query when one decoded; the key input is open exactly when there is no active key |
| CondoleancesPage.CondoleancesPage.SaveApiKey | src/pages/CondoleancesPage.tsx:47-51 | the key is kept and the input closed; the key effect reopens it only if the active key became none |
| CondoleancesPage.CondoleancesPage.Generate | src/pages/CondoleancesPage.tsx:53-85 | without an active key the input opens and nothing else changes; success prepends the condoleance capped at fifty; a rate-limit error reopens the key input |
| Fobieen.FobieenPage.constructor | src/pages/FobieenPage.tsx:11-15 | nothing shown, no key, the key input closed |
| Fobieen.FobieenPage.Mount | src/pages/FobieenPage.tsx:24-49 | load the list and key, merge a non-duplicate shared fobie and save it, clear the query whenever one decoded, and open the input exactly when there is no active key |
| Fobieen.FobieenPage.MergeShared | src/pages/FobieenPage.tsx:34-42 | a duplicate by `naam` and `beschrijving` changes nothing but the query; a new one is saved and prepended |
| Fobieen.FobieenPage.SaveApiKey | src/pages/FobieenPage.tsx:51-56 | the key is stored and kept; the input closes and reopens only if the active key became none |
| Fobieen.FobieenPage.Generate | src/pages/FobieenPage.tsx:58-92 | without an active key the input opens and nothing is sent; success saves and prepends the fobie; a rate-limit error reopens the input |
| Fobieen.FobieenPage.Settle | src/pages/FobieenPage.tsx:68-85 | a success adds the fobie with its fresh id and timestamp; a failure changes only the key input's visibility |
| Fobieen.FobieenPage.Add | src/pages/FobieenPage.tsx:77-78 | the store saves the item capped at fifty, the page prepends it uncapped, and the stored list stays the front of the shown one |
| Fobieen.FobieenPage.Delete | src/pages/FobieenPage.tsx:94-97 | the id is removed from the store and from the shown list |
| ExcuusPage.ExcuusExMachinaPage.constructor | src/pages/ExcuusExMachinaPage.tsx:11-16 | nothing shown, no key, an empty situatie, length `normaal` |
| ExcuusPage.ExcuusExMachinaPage.Mount | src/pages/ExcuusExMachinaPage.tsx:34-59 | load, merge a non-duplicate shared excuus and save it, clear the query whenever one decoded, and open the input exactly when there is no active key |
| ExcuusPage.ExcuusExMachinaPage.MergeShared | src/pages/ExcuusExMachinaPage.tsx:44-52 | a duplicate by `situatie` and `excuus` changes nothing but the query; a new one is saved and prepended |
| ExcuusPage.ExcuusExMachinaPage.SaveApiKey | src/pages/ExcuusExMachinaPage.tsx:61-66 | the key is stored and kept; the input closes and reopens only if the active key became none |
| ExcuusPage.ExcuusExMachinaPage.Generate | src/pages/ExcuusExMachinaPage.tsx:73-114 | refused without an active key (input opens) or with a blank situatie; success saves and prepends an excuus with the trimmed situatie and clears the field; a rate-limit error reopens the input |
| ExcuusPage.ExcuusExMachinaPage.Settle | src/pages/ExcuusExMachinaPage.tsx:88-107 | a success adds the excuus and clears the field; a failure changes only the key input's visibility |
| ExcuusPage.ExcuusExMachinaPage.Add | src/pages/ExcuusExMachinaPage.tsx:98-99 | the store saves the item capped at fifty, the page prepends it uncapped, and the stored list stays the front of the shown one |
| ExcuusPage.ExcuusExMachinaPage.Delete | src/pages/ExcuusExMachinaPage.tsx:116-119 | the id is removed from the store and from the shown list |
| DraaiboekenPage.DestructieveDraaiboeken.constructor | src/pages/DestructieveDraaiboeken.tsx:11-16 | nothing shown, no key, an empty taak, level `gure-ramp` |
| DraaiboekenPage.DestructieveDraaiboeken.Mount | src/pages/DestructieveDraaiboeken.tsx:34-59 | load, merge a non-duplicate shared draaiboek and save it, clear the query whenever one decoded, and open the input exactly when there is no active key |
| DraaiboekenPage.DestructieveDraaiboeken.MergeShared | src/pages/DestructieveDraaiboeken.tsx:44-52 | a duplicate by `taak` and `draaiboek` changes nothing but the query; a new one is saved and prepended |
| DraaiboekenPage.DestructieveDraaiboeken.SaveApiKey | src/pages/DestructieveDraaiboeken.tsx:61-66 | the key is stored and kept; the input closes and reopens only if the active key became none |
| DraaiboekenPage.DestructieveDraaiboeken.Generate | src/pages/DestructieveDraaiboeken.tsx:73-114 | refused without an active key (input opens) or with a blank taak; success saves and prepends a draaiboek with the trimmed taak and clears the field; a rate-limit error reopens the input |
| DraaiboekenPage.DestructieveDraaiboeken.Settle | src/pages/DestructieveDraaiboeken.tsx:88-107 | a success adds the draaiboek and clears the field; a failure changes only the key input's visibility |
| DraaiboekenPage.DestructieveDraaiboeken.Add | src/pages/DestructieveDraaiboeken.tsx:98-99 | the store saves the item capped at fifty, the page prepends it uncapped, and the stored list stays the front of the shown one |
| DraaiboekenPage.DestructieveDraaiboeken.Delete | src/pages/DestructieveDraaiboeken.tsx:116-119 | the id is removed from the store and from the shown list |
| HaikusPage.HopelozeHaikusPage.constructor | src/pages/HopelozeHaikusPage.tsx:9-14 | nothing shown, an empty key field, no error, the box unchecked |
| HaikusPage.HopelozeHaikusPage.Mount | src/pages/HopelozeHaikusPage.tsx:16-33 | a non-empty stored key fills the field, else the key input opens; a shared haiku is always saved and prepended, and the query cleared |
| HaikusPage.HopelozeHaikusPage.TakeShared | src/pages/HopelozeHaikusPage.tsx:27-32 | a shared haiku goes in front with no duplicate test |
| HaikusPage.HopelozeHaikusPage.Generate | src/pages/HopelozeHaikusPage.tsx:35-63 | an empty key sets the key error and opens the input; otherwise the error clears and the service's haiku is saved and prepended with the chosen flag, or the fixed error is shown |
| HaikusPage.HopelozeHaikusPage.Settle | src/pages/HopelozeHaikusPage.tsx:46-59 | a success adds the haiku; any failure sets the one generation error and leaves the list |
| HaikusPage.HopelozeHaikusPage.Add | src/pages/HopelozeHaikusPage.tsx:55-56 | the store saves the haiku capped at fifty and the page prepends it |
| HaikusPage.HopelozeHaikusPage.SaveApiKey | src/pages/HopelozeHaikusPage.tsx:65-71 | a non-blank key is stored trimmed, the input closes and the error clears; a blank one changes nothing |
| HaikusPage.HopelozeHaikusPage.CancelApiKeyInput | src/pages/HopelozeHaikusPage.tsx:111-118 | the cancel button, offered only while the store holds a key, closes the input |
| HaikusPage.HopelozeHaikusPage.Delete | src/pages/HopelozeHaikusPage.tsx:73-76 | the id is removed from the store and from the shown list |
| ApiKeyForm.SaveVerdict | src/components/ApiKeyInput.tsx:13-23 | a blank text trims to nothing, and a key valid once trimmed was valid as typed |
| ApiKeyForm.ApiKeyInput.constructor | src/components/ApiKeyInput.tsx:9-10 | an empty field and no error |
| ApiKeyForm.ApiKeyInput.Edit | src/components/ApiKeyInput.tsx:36-39 | editing sets the text and clears any error |
| ApiKeyForm.ApiKeyInput.HandleSave | src/components/ApiKeyInput.tsx:12-28 | the key is handed on, trimmed, exactly when it is valid, and the field and error are cleared; otherwise the blank or format error is shown and the text is kept |

## Left out

- Network I/O: every `fetch` is left out. Its result is the `Reply` parameter, and no request is sent.
- The prompt texts are left out, as are `temperature`, `topK`, `topP`, `maxOutputTokens` and the model name. A request is reduced to the parts the services vary: the key, the user prompt built from the input, the haiku's extra section, the safety threshold, and the `role` entry.
- Services.GenerateFobie: the regex fallback (src/services/fobie.ts:144-152) is the parameter `extract`, and `JSON.parse` of the reply is the parameter `parse`. The model states when each is consulted, not what they compute.
- JSON itself: each share payload goes through an abstract codec whose parser is a left inverse of its printer (`JsonCodec.Lawful`). A stored slot is `Absent`, `Corrupt`, a list of items or a key string. `JSON.parse` of a non-list slot is not modelled, nor is an empty-string slot read differently from `Corrupt`.
- URLSearchParams: getters take the parsed list of name/value pairs. Parsing the query string into pairs is not modelled. Instead, `ShareToken.DecodePercentDecodedToken` covers both the raw token and the once-decoded form a parser hands over.
- Clocks and randomness: `new Date()`, `crypto.randomUUID` and `Math.random` become the parameters `now`, `id` and `draws`. The random picks of situaties and taken in the services are left out.
- Rendering and browser APIs are left out: JSX, notifications, `isGenerating`/`loading`, text-to-speech, share sheets, clipboard, routing and page meta. `clearUrlParams` and `history.replaceState` are modelled as emptying the page's `query` field.
- src/hooks/useLocalStorage.ts is not part of this model. On the condoleance page, the list and key it backs are plain fields holding the values it read.
- The CV page (src/pages/KanslozeCvPage.tsx) and the levenslessen page (src/pages/LugubereLevenslessenPage.tsx) are left out. Their list rules repeat the stores, and the rest is regex markdown stripping and image rendering. js/app.js is DOM orchestration and is left out too.
- HaikusPage.HopelozeHaikusPage.Mount: the parsed haiku's `text` is taken as a string, and a non-boolean `extraHopeloosheid` that is truthy is not modelled. The flag is a boolean or absent.
- JsStrings.Str: the source's literals are all in the Basic Multilingual Plane, so a literal character beyond it is mapped to U+FFFD rather than to a surrogate pair.
- The displayed and stored lists of the fobie, excuus, draaiboek and haiku pages diverge in two ways. The page prepends without a cap while the store caps at fifty, and a failed write is ignored by the page. The model keeps both lists and proves only that the store stays a prefix of the page while writes succeed (`InStep`).
- The "API Key wijzigen" buttons only open the key input. They set one field and are not modelled as methods.
- `validateApiKey`'s `typeof apiKey !== 'string'` branch has no counterpart, because every key in the model is a string.
