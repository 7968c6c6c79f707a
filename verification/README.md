# Multi-provider analysis endpoint, modelled in Dafny

The endpoint `api/ai.js` takes a text and returns a JSON analysis produced by
one of four language-model providers: Google Gemini, SambaNova (Qwen), Groq
(Llama) and Cohere. This project models the endpoint's decision procedure:

- the request gate: a request without text is refused with a 400;
- the strict selector: a named provider is served alone, with no fallback;
- the automatic cascade Google → SambaNova → Groq → Cohere: it skips providers
  with no key, stops at the first success, and logs every failure;
- Google's inner loop over three model ids;
- the string handling inside the four adapters:
  - truncating the user's text to each provider's budget;
  - the greedy object match `/\{[\s\S]*\}/`;
  - Cohere's fence removal and `trim()`.

Modules:

- `Wrappers` — `Option` and `Result`.
- `Strings` — `Prefix` (`substring(0, n)`), `MatchObject` (the regular-expression
  match, with its leftmost-longest meaning stated as a ghost predicate),
  `RemoveAll` (`replace(/lit/g, '')`), `Trim`, `StripFences`.
- `Providers` — the provider enumeration, the outbound request record `Call`
  (provider, model id, key, embedded text), the four adapters and the dispatch
  `Invoke`. Everything outside the program is an `Env` oracle:
  - `fetch` folds the HTTP call, the `res.ok` test, reading the body and the
    path to the answer text; it yields the answer or the thrown message;
  - `parse` stands for `JSON.parse`.
- `Handler` — `Handle`, `Select`, `Cascade`. The reply records the status, the
  body, the adapters invoked and every outbound request in order, so facts
  about what was *not* called can be stated. The cascade and the selector take
  any oracle `Provider -> Attempt`. The reference definitions `Keyed`,
  `CallsOf` and `FailureLog` are what the cascade lemmas compare it with.

Credentials are a `map<Provider, string>`. A provider counts as configured
exactly when its entry is present and non-empty, which is JavaScript
truthiness of the environment variable.

## Model

| member | source | states |
|---|---|---|
| Handler.FalsyFields | api/ai.js:11 | a string field is falsy exactly when it is absent or empty |
| Handler.ConfiguredIsTruthyKey | api/ai.js:25-28 | a provider is configured exactly when looking up its variable gives a truthy value, an unset variable being `undefined` |
| Handler.NotConfiguredNamesRequest | api/ai.js:30 | the refusal is the requested name plus 42 fixed characters, and the name sits right after "El proveedor " |
| Handler.EntryReadsBack | api/ai.js:42 | a log entry is the provider's log name, ": ", the error message, then "; ", and each part can be read back |
| Handler.FailureLog | api/ai.js:38-58 | the reference log: empty exactly when no provider failed; otherwise it opens with the first failed provider's name and ": " and ends with "; " |
| Handler.Handle | api/ai.js:10-60 | the status is 400, 200 or 500; it is 400 exactly when the text is missing or empty, and then the body is "No hay texto." and nothing was called; a 200 carries an analysis and a 500 an error message |
| Handler.MissingTextRejected | api/ai.js:10-11 | an absent or empty text gives the 400 reply with no adapter invoked and no request sent |
| Handler.Single | api/ai.js:25-32 | serving one provider: only it is invoked and only its requests are sent; 200 with its result if it succeeds, otherwise 500 with its error message |
| Handler.Select | api/ai.js:22-33 | at most one provider is invoked; none is invoked exactly when no provider of that name has a key, and then the reply is 500 "El proveedor <name> no está configurado o falló."; otherwise the one invoked has the requested name and a key, and the reply is its single call |
| Handler.StrictSelection | api/ai.js:22-33 | with a truthy text and a configured named provider, exactly that provider is invoked with its own key; its success is a 200 with the result and its failure a 500 with its message, and no other provider is tried |
| Handler.UnconfiguredSelection | api/ai.js:25-32 | an unknown or unconfigured requested name gives the 500 not-configured reply with nothing invoked |
| Handler.EmptyPreferenceIsAutomatic | api/ai.js:22 | an empty preferred provider is falsy: the reply equals the reply without one |
| Handler.Cascade | api/ai.js:38-60 | the cascade answers 200 with an analysis or 500 with an error, and invokes no more adapters than the order has providers |
| Handler.Keyed | api/ai.js:40-58 | the reference subsequence: a provider is in it exactly when it is in the order and has a key |
| Handler.CascadeInvokesKeyedPrefix | api/ai.js:40-58 | the providers invoked are a prefix of the keyed providers in order, so none is skipped; the requests sent are exactly theirs, in order |
| Handler.CascadeSucceedsIffSomeSucceeds | api/ai.js:40-58 | the cascade answers 200 exactly when some keyed provider of the order succeeds |
| Handler.CascadeServesFirstSuccess | api/ai.js:40-58 | on a 200 the last provider invoked succeeded and its result is the body, and every provider invoked before it failed |
| Handler.CascadeFirstSuccessWins | api/ai.js:40-58 | 200 exactly when some keyed provider succeeds; then the last provider invoked succeeded, its result is the body, and every earlier one failed, so the first success is served and nothing after it is called |
| Handler.CascadeTotalFailure | api/ai.js:38-60 | on a 500 every keyed provider was invoked and failed, and the message is "Todos los proveedores gratuitos fallaron. Log: " followed by one "<Name>: <msg>; " entry per failure in attempt order |
| Handler.CallsOfMembers | api/ai.js:40-58 | every request in the concatenated requests of a provider list was sent by one of them |
| Handler.KeyedPriority | api/ai.js:37-58 | the automatic order filtered by keys is Google, SambaNova, Groq, Cohere, each present exactly when its key is |
| Handler.AutomaticCascade | api/ai.js:36-60 | with no preference, the invoked providers are a prefix of the keyed priority order; the first success is served; on total failure all keyed providers failed and the log lists them in order |
| Handler.RequestsStayWithInvokedProviders | api/ai.js:22-58 | in every mode, each outbound request belongs to an invoked, keyed provider, carries that provider's own key and the text cut to that provider's budget |
| Handler.NoKeysEmptyLog | api/ai.js:38-60 | with no key at all, automatic mode calls nothing and fails with an empty log |
| Providers.TryModels | api/ai.js:69-82 | the models are tried in list order with the same prompt; on success the last model tried gave the result and all earlier ones failed; on failure every model was tried and failed and the error is "Gemini falló" |
| Providers.Budget | api/ai.js:72-133 | the truncation budgets: 30000 exactly for Google, 20000 exactly for Cohere, 15000 exactly for Groq and SambaNova |
| Providers.CallGoogle | api/ai.js:68-83 | one to three requests, the k-th to the k-th Gemini model with the key and the first 30000 characters; a failure is "Gemini falló" after all three models |
| Providers.CallGoogleFirstModelWins | api/ai.js:68-83 | Google sends one to three requests; it succeeds exactly when one of its three models does, with the answer of the first one that does; otherwise it fails with "Gemini falló" |
| Providers.CallGroq | api/ai.js:86-95 | one request to llama-3.3-70b-versatile with the first 15000 characters; a fetch error is passed through, otherwise the answer is parsed as it stands |
| Providers.CallSambaNova | api/ai.js:98-124 | one request to Qwen2.5-72B-Instruct with the first 15000 characters; a fetch error is passed through; an answer with no `{…}` span fails with "Qwen no devolvió JSON puro"; otherwise the span is parsed |
| Providers.CallCohere | api/ai.js:127-147 | one request to command-r-plus with the first 20000 characters; a fetch error is passed through; the answer is fence-stripped and trimmed; no `{…}` span fails with "Cohere no devolvió JSON puro"; otherwise the span is parsed |
| Providers.Invoke | api/ai.js:25-28 | one to three requests, all addressed to the chosen provider, with the given key and the text cut to that provider's budget |
| Strings.Prefix | api/ai.js:72 | the result is a prefix of the text, the whole text when it fits the budget and exactly the budget long otherwise |
| Strings.PrefixKeepsShortText | api/ai.js:87 | truncation changes the text exactly when it is longer than the budget |
| Strings.FirstIndexOf | api/ai.js:121 | the index of the first occurrence of the character, or none when it does not occur |
| Strings.LastIndexOf | api/ai.js:121 | the index of the last occurrence of the character, or none when it does not occur |
| Strings.MatchObject | api/ai.js:121-122 | no match exactly when no `{` comes before a `}`; a match is the leftmost-longest `{…}` span, from the first `{` to the last `}` |
| Strings.MatchObjectIdempotent | api/ai.js:144 | matching the matched span again yields the same span |
| Strings.MatchObjectDropsProse | api/ai.js:120-123 | prose around the object is dropped: "ok {x} ." yields "{x}" |
| Strings.RemoveAll | api/ai.js:143 | deleting a literal never lengthens the string and introduces no new character |
| Strings.RemoveAllAbsent | api/ai.js:143 | a string in which the literal never occurs is unchanged |
| Strings.LeadingSpaces | api/ai.js:143 | the length of the white-space run at the start of the string |
| Strings.TrailingSpaces | api/ai.js:143 | the length of the white-space run at the end of the string |
| Strings.Trim | api/ai.js:143 | the result is a contiguous piece of the string with only white space around it, and it neither begins nor ends with white space |
| Strings.TrimKeepsTrimmed | api/ai.js:143 | a string without white space at its ends is its own trim |
| Strings.TrimIdempotent | api/ai.js:143 | trimming twice equals trimming once |
| Strings.StripFences | api/ai.js:143 | the clean-up never lengthens the answer, and its result neither begins nor ends with white space |
| Strings.StripFencesWithoutBackticks | api/ai.js:143 | on an answer with no backtick the clean-up is just `trim()` |
| Strings.StripFencesUnwrapsBlock | api/ai.js:143 | for every backtick-free body, a "```json … ```" block around it is cleaned to the trimmed body |
| Strings.KeepsClosingFence | api/ai.js:143 | deleting "```json" leaves a backtick-free text followed by "```" unchanged |
| Strings.DropsClosingFence | api/ai.js:143 | deleting "```" from a backtick-free text followed by "```" leaves the text |

## Left out

- CORS headers and the OPTIONS pre-flight (api/ai.js:3-8): constant header writes with no decision in them.
- Reading `process.env` (api/ai.js:14-19): the keys are an input map.
- `fetch`, the `res.ok` test, `res.text()`, `res.json()` and the paths such as `data.candidates[0]...`: all are folded into the `Env.fetch` oracle. A missing field that makes the code throw is one of the oracle's error messages.
- `JSON.parse`: an abstract partial function (`Env.parse`). No JSON grammar is modelled, and the parsed value is passed through unchanged.
- Prompt wording, `responseMimeType`, `response_format`, `temperature`, the Cohere preamble and `console.log`: a `Call` records only the provider, the model id, the key and the embedded text.
- Request fields that are not strings (numbers, objects): the two fields are modelled as optional strings, `None` being an absent field.
- A missing or null `req.body`: the destructuring at api/ai.js:10 then throws before the gate, an uncaught error rather than a 400. This path is not modelled.
- `await` and the single-threaded event loop: the cascade is sequential, so it is modelled as a plain function.
- `api/proxy.js`: a raw pass-through with no logic; it is not part of this model.
- Strings.RemoveAll: only simple facts are proved about it. A single pass can join leftover backticks into a new fence, so no "no fence remains" property is claimed.
- JavaScript strings are sequences of UTF-16 code units. Here a `char` stands for one code unit, and no surrogate pairs are modelled.
- The adapters do no recovery beyond the brace match and Cohere's fence clean-up, and the handler has no fallback after a preference:
  - SambaNova and Cohere go straight to the brace match. They do not first try a direct parse of the whole answer.
  - An empty answer is not rejected early; it simply has no match.
  - There is no retry that strips control characters.
  - There is no excerpt of the raw answer in error messages.
  - There are no per-call timeouts.
  - An explicit preference never falls back to the cascade.
