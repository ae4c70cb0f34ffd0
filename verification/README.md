# recipe_app Cloud Functions — a Dafny model of the data path

The recipe app's Firebase backend (`functions/index.js`) has two callable
handlers. `parseIngredient` takes one ingredient line, has an ingredient
parser split it, and returns `{ raw, quantity, unit, item, notes }`.
`parseRecipeFromOcr` receives text recognised from cookbook pages. It
flattens that text into numbered `[p… b…]` prompt lines, asks a Gemini
model for a recipe object, and cleans that object up before returning it.

This project models the pure data shaping inside those handlers, on a
JSON-like value type:

- `Wrappers`: `Option` and `Result`.
- `Seqs`: generic `map`, `filter`-after-`map`, indexed `map`, flatten and `join`, with positional lemmas.
- `JsStrings`: `String.prototype.trim` over the ECMAScript white-space and line-terminator code points.
- `JsValues`: JavaScript values, with property lookup (`?.`), `??`, truthiness, `asString` and `toString`. A number is its IEEE-754 bit pattern.
- `Decimal`: the decimal text of a natural number, and reading it back.
- `OcrPages`: `normalizePages`, both as a function and as the source's nested loop, with the block, page and top-level fallback rules.
- `OcrPrompt`: the `[p{p} b{b}] {text}` line format and its decoder.
- `RecipeSanitize`: the clean-up of the ingredients, steps and tags of the model's object.
- `Handlers`: the two handlers. The ingredient parser, the model call and `JSON.parse` are parameters.

## Model

| member | source | states |
|---|---|---|
| JsStrings.Trim | functions/index.js:73 | the result of `trim` has no white space at either end, is never longer than the input, is empty exactly when the input is all white space, and leaves an already-trimmed string unchanged |
| JsStrings.TrimSlice | functions/index.js:79 | `trim` returns the contiguous middle of its input, between a white-space prefix and a white-space suffix |
| JsValues.AsString | functions/index.js:62-64 | `asString` gives a string unchanged and `""` for every other value |
| JsValues.ToJsString | functions/index.js:19 | `toString` of a string is the string itself and of a plain object `"[object Object]"`; the conversion throws exactly when an object with its own `toString` key is converted, directly or as a non-nullish array element |
| Decimal.NatToDecimal | functions/index.js:165 | an interpolated page or block index is a non-empty run of digits without a leading zero |
| Decimal.DecimalRoundTrip | functions/index.js:165 | reading back the decimal text of an index gives the index |
| OcrPages.NormalizePages | functions/index.js:66-95 | every OCR entry has non-empty trimmed text, and the entries are strictly increasing in (page, block) order |
| OcrPages.BlockEntriesSound | functions/index.js:77-82 | each entry of a page's blocks is a non-blank block of that page at its original index with its trimmed text, and block indices strictly increase |
| OcrPages.BlockEntriesComplete | functions/index.js:77-82 | every non-blank block produces an entry carrying its index |
| OcrPages.PageWithBlocks | functions/index.js:76-84 | a page with blocks contributes exactly its non-blank blocks, in order, and its `fullText` plays no part |
| OcrPages.PageWithoutBlocks | functions/index.js:86-87 | a page without blocks contributes at most one entry, `{p, b: 0, text: trim(fullText)}`, and none exactly when that text is blank |
| OcrPages.PageEntriesSound | functions/index.js:71-87 | a page's entries all carry its page index, have increasing block indices and clean texts, and are empty exactly when the page is blank |
| OcrPages.PagesEntriesSound | functions/index.js:70-88 | the entries of all pages carry page indices in range, are strictly ordered and have clean texts |
| OcrPages.AllPagesBlank | functions/index.js:70-88 | the pages produce no entry exactly when every page is blank |
| OcrPages.TopTextOnlyAsFallback | functions/index.js:90-92 | the top-level `text` is used only when every page is blank, and then the result is the singleton `{p: 0, b: 0, text: trim(text)}` or empty when it is blank |
| OcrPages.NormalizePagesEmpty | functions/index.js:66-95 | the result is empty exactly when every page is blank and the top-level text is blank |
| OcrPages.NormalizePagesLoop | functions/index.js:66-95 | the nested loop of the source computes the same entries as the functional definition |
| OcrPages.PushPages | functions/index.js:70-88 | the loop over pages appends each page's entries in page order |
| OcrPages.PushPage | functions/index.js:71-87 | one pass of the outer loop appends exactly that page's entries |
| OcrPages.PushBlocks | functions/index.js:77-82 | the loop over blocks appends exactly the entries of the non-blank blocks in block order |
| OcrPages.NormalizePagesReadsPagesAndText | functions/index.js:66-95 | only `pages` and the top-level `text` of the payload are read |
| OcrPages.TopLevelBlocksIgnored | functions/index.js:66-95 | a payload `{blocks: [{text: ...}]}`, the shape the rejection message at line 116 suggests, gives no entry |
| OcrPrompt.FormatEntry | functions/index.js:165 | a prompt line starts with `[p` and is at least eight characters longer than the entry text |
| OcrPrompt.FormatEntryAppend | functions/index.js:165 | the entry text is the tail of its prompt line: extending the text extends the line by exactly the same characters |
| OcrPrompt.OcrText | functions/index.js:165 | the joined prompt is empty exactly when there are no entries, and, for a non-empty list of entries none of whose texts holds a line break, consists of exactly one line per entry, in order |
| OcrPrompt.FormatEntryRoundTrip | functions/index.js:165 | a `[p{p} b{b}] {text}` line decodes back to its entry |
| OcrPrompt.FormatEntryInjective | functions/index.js:165 | two different entries never give the same prompt line |
| OcrPrompt.FormatEntryNoNewline | functions/index.js:165 | a prompt line holds no line break when its entry text holds none, so each entry is exactly one line of the prompt |
| OcrPrompt.OcrTextRoundTrip | functions/index.js:165 | for a non-empty list of entries none of whose texts holds a line break (the handler rejects an empty list before formatting), splitting the joined prompt at `\n` and decoding each line gives back exactly the entries, in order |
| OcrPrompt.PromptAmbiguousAcrossLines | functions/index.js:165 | an entry whose text continues, after a line break, with another entry's line renders exactly as those two entries, so the prompt does not determine the entries once texts span lines |
| RecipeSanitize.NullableText | functions/index.js:222-224 | `unit`, `item` and `notes` are `null` exactly when the input field is null or undefined; otherwise they are the trimmed string, or `""` for a non-string |
| RecipeSanitize.SanitizeIngredients | functions/index.js:214-227 | the cleaned list is never longer than the input, each ingredient has a non-blank trimmed `raw`, and its members are exactly the cleaned inputs with non-blank `raw` |
| RecipeSanitize.SanitizeIngredientsAt | functions/index.js:215-226 | each input ingredient contributes its cleaned form, in its own place, exactly when its trimmed `raw` is non-blank, so relative order is kept |
| RecipeSanitize.IngredientRoundTrip | functions/index.js:216-226 | a cleaned ingredient, written out as an object and cleaned again, is unchanged |
| RecipeSanitize.SanitizeIngredientsIdempotent | functions/index.js:214-227 | cleaning an already-cleaned ingredient list changes nothing |
| RecipeSanitize.SanitizeTexts | functions/index.js:229-235 | steps and tags after clean-up are non-empty and trimmed, never more than went in, and exactly the trimmed non-blank strings of the input |
| RecipeSanitize.SanitizeTextsAt | functions/index.js:229-235 | each step or tag contributes its trimmed text, in its own place, exactly when it is a non-blank string; a non-string element contributes nothing |
| RecipeSanitize.SanitizeTextsIdempotent | functions/index.js:229-235 | cleaning already-cleaned steps or tags changes nothing |
| RecipeSanitize.RewriteArray | functions/index.js:214-235 | a field is replaced only when it holds an array, and no other field changes |
| RecipeSanitize.SanitizeRecipe | functions/index.js:213-237 | a non-object is returned as is; the key set never changes; only `ingredients`, `steps` and `tags` change, and only when they hold arrays |
| RecipeSanitize.SanitizeRecipeIdempotent | functions/index.js:213-237 | cleaning the returned recipe again changes nothing |
| Handlers.RawInput | functions/index.js:19 | a missing, null or undefined `raw` reads as `""`, a string `raw` reads as itself, and the conversion fails exactly when `toString` throws on `raw` |
| Handlers.FirstPresent | functions/index.js:34-38 | a `??` chain yields the first candidate that is neither null nor undefined, or the last one when all of them are |
| Handlers.UnitOf | functions/index.js:34-38 | the unit is the first present of `display`, `canonical`, `abbr` and `raw` of `parsed.unit` |
| Handlers.NonBlankText | functions/index.js:39-46 | `item` and `notes` are present exactly when the parser gave a non-blank string, and are then its trimmed form |
| JsValues.FiniteNumber | functions/index.js:30-33 | a quantity is kept exactly when it is a finite number, here and in the recipe clean-up (lines 218-221, where the absent case is `null`) |
| Handlers.ParseIngredient | functions/index.js:18-52 | a `raw` on which `toString` throws ends the call with `internal`; otherwise blank input fails with `invalid-argument` and anything else succeeds with `raw` the trimmed input; the reply is `{raw}` exactly when the parser threw, returned a falsy value, or returned something not of type `item`; otherwise the quantity, unit, item and notes follow their rules |
| Handlers.ParseIngredientResubmit | functions/index.js:19-28 | sending back the `raw` of a reply gives the same reply |
| Handlers.ParseIngredientNonCallableToString | functions/index.js:19-22 | every object with its own `toString` key as `raw`, alone or as any element of an array, makes the call fail with `internal` before the parser runs |
| Handlers.SafeJsonParse | functions/index.js:97-103 | a parse failure, including a missing response text, gives `null` |
| Handlers.ParseRecipeFromOcr | functions/index.js:105-238 | an empty OCR payload fails with `invalid-argument`; a failed model call fails with the generic `internal` error, and an answer that does not parse to a truthy value fails with `internal` and the invalid-JSON message; the handler succeeds exactly when there are OCR entries, the model answers, and its text parses to a truthy value; the reply is then the cleaned parsed value |
| Handlers.OcrRejectsEmptyBeforeModel | functions/index.js:112-118 | an empty OCR payload fails in the same way whatever the model and the JSON parser would do |
| Handlers.SuggestedBlocksPayloadRejected | functions/index.js:112-118 | the payload shape the rejection message suggests is itself rejected with that message |
| Handlers.OcrReplyIsSanitized | functions/index.js:205-237 | whenever the handler succeeds, its reply is already clean: cleaning it again changes nothing |

## Left out

- Firebase plumbing is not modelled. This covers `onCall`, the transport of `HttpsError`, the region, timeout and memory options, and the `logger` calls. It is I/O and configuration.
- The `PROJECT` environment check (`failed-precondition`) is not modelled. `ParseRecipeFromOcr` is the handler with the project configured.
- The Gemini call is a parameter `generate`. The system prompt, the user-prompt wrapping around the OCR lines and the response-schema literal are not modelled. `generate` receives the joined OCR lines and either fails or answers with an optional response text. A failure is reported as the transport's generic `internal` error.
- `JSON.parse` is a parameter, a partial function returning an `Option`.
- The ingredient parser is a parameter. Its lazy import and promise caching in `getParseLine` are not modelled. A failed import and a throw from the parser both give `Threw`.
- `toString` of a finite number is a parameter `numberText`. The number-formatting algorithm is floating-point detail.
- Key order of objects is not represented. Objects are maps.
- The wire form of the replies is not modelled. The `undefined` fields of a `parseIngredient` reply are kept as `None` in `Structured`.
- Strings are sequences of code points. Lone UTF-16 surrogates are not represented.
- Payload values hold no functions, so an own `toString` key is never callable. Symbols, getters and other exotic objects are not represented.
- Property lookup on strings, arrays and other non-objects always yields `undefined` (for example `parsed.type` when `parsed` is a string). Inherited properties are not represented either.
- The iOS share extension and app delegate (`ios/`) are platform glue and are not part of this model.
