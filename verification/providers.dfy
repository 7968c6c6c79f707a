/** The four provider adapters of the analysis endpoint. Each builds one or
    more outbound requests from a credential and the user's text, and turns
    the model's answer into a parsed JSON value or an error message.

    Everything the adapters cannot see is the environment `Env`: `fetch`
    stands for the HTTP call, the `res.ok` check, reading the body and the
    provider-specific path to the answer text; `parse` stands for
    `JSON.parse`. */
module Providers {
  import opened Wrappers
  import Strings

  datatype Provider = Google | Groq | SambaNova | Cohere

  /** A value produced by `JSON.parse`. The endpoint hands it to its caller
      unchanged, so its shape is never inspected here. */
  datatype Json =
    | JNull
    | JBool(b: bool)
    | JNumber(literal: string)
    | JString(s: string)
    | JArray(items: seq<Json>)
    | JObject(fields: seq<(string, Json)>)

  /** One outbound request: the provider, the model id in its body, the
      credential, and the part of the user's text embedded in the prompt. */
  datatype Call = Call(provider: Provider, model: string, key: string, text: string)

  /** The outside world for one request. `fetch` yields the model's answer
      text, or the message of the error raised on the way (the body of a
      non-OK response, a network error, a missing response field). */
  datatype Env = Env(fetch: Call -> Result<string, string>, parse: string -> Result<Json, string>)

  /** What one adapter call yields, with the requests it sent in order */
  datatype Attempt = Attempt(outcome: Result<Json, string>, calls: seq<Call>)

  /** The Gemini models, in the order they are tried */
  const GeminiModels: seq<string> := ["gemini-2.0-flash", "gemini-2.0-pro-exp-02-05", "gemini-1.5-pro"]
  const GroqModel := "llama-3.3-70b-versatile"
  const SambaNovaModel := "Qwen2.5-72B-Instruct"
  const CohereModel := "command-r-plus"

  const GeminiFailed := "Gemini falló"
  const QwenNoJson := "Qwen no devolvió JSON puro"
  const CohereNoJson := "Cohere no devolvió JSON puro"

  /** How many characters of the user's text each provider's prompt carries */
  function Budget(p: Provider): (n: nat)
    ensures n == 30000 <==> p == Google
    ensures n == 20000 <==> p == Cohere
    ensures n == 15000 <==> p == Groq || p == SambaNova
  {
    match p
    case Google => 30000
    case Groq => 15000
    case SambaNova => 15000
    case Cohere => 20000
  }

  function GeminiCall(model: string, key: string, text: string): Call {
    Call(Google, model, key, Strings.Prefix(text, Budget(Google)))
  }

  /** One turn of the Gemini model loop: the fetch's error, or the parse of
      the answer text */
  function GeminiTry(env: Env, call: Call): Result<Json, string> {
    match env.fetch(call)
    case Failure(e) => Failure(e)
    case Success(raw) => env.parse(raw)
  }

  /** The Gemini loop over `models`, each request carrying `prompt`: the
      first model whose answer parses wins; a failed model is skipped and
      its error dropped; when none is left the loop fails with "Gemini
      falló". */
  function TryModels(env: Env, key: string, prompt: string, models: seq<string>): (a: Attempt)
    ensures |a.calls| <= |models|
    ensures forall k :: 0 <= k < |a.calls| ==> a.calls[k] == Call(Google, models[k], key, prompt)
    ensures a.outcome.Success? ==>
      && |a.calls| > 0
      && a.outcome == GeminiTry(env, a.calls[|a.calls| - 1])
      && forall k :: 0 <= k < |a.calls| - 1 ==> GeminiTry(env, a.calls[k]).Failure?
    ensures a.outcome.Failure? ==>
      && a.outcome.error == GeminiFailed
      && |a.calls| == |models|
      && forall k :: 0 <= k < |models| ==> GeminiTry(env, Call(Google, models[k], key, prompt)).Failure?
    decreases |models|
  {
    if models == [] then Attempt(Failure(GeminiFailed), [])
    else
      var call := Call(Google, models[0], key, prompt);
      match GeminiTry(env, call)
      case Success(v) => Attempt(Success(v), [call])
      case Failure(_) =>
        var rest := TryModels(env, key, prompt, models[1..]);
        Attempt(rest.outcome, [call] + rest.calls)
  }

  /** Google: the model loop over the request's text cut to 30000 characters */
  function CallGoogle(env: Env, key: string, text: string): (a: Attempt)
    ensures 1 <= |a.calls| <= 3
    ensures forall k :: 0 <= k < |a.calls| ==> a.calls[k] == GeminiCall(GeminiModels[k], key, text)
    ensures a.outcome.Failure? ==> a.outcome == Failure(GeminiFailed) && |a.calls| == 3
  {
    TryModels(env, key, Strings.Prefix(text, Budget(Google)), GeminiModels)
  }

  /** Google succeeds exactly when one of its three models does, and then
      with the answer of the first that does. */
  lemma CallGoogleFirstModelWins(env: Env, key: string, text: string)
    ensures var a := CallGoogle(env, key, text);
      && 1 <= |a.calls| <= 3
      && (a.outcome.Success? <==>
            exists k :: 0 <= k < 3 && GeminiTry(env, GeminiCall(GeminiModels[k], key, text)).Success?)
      && (a.outcome.Success? ==>
            exists k :: 0 <= k < 3 && a.outcome == GeminiTry(env, GeminiCall(GeminiModels[k], key, text))
                 && forall m :: 0 <= m < k ==> GeminiTry(env, GeminiCall(GeminiModels[m], key, text)).Failure?)
      && (a.outcome.Failure? ==> a.outcome == Failure(GeminiFailed))
  {
    var a := CallGoogle(env, key, text);
    if a.outcome.Success? {
      var k := |a.calls| - 1;
      assert a.calls[k] == GeminiCall(GeminiModels[k], key, text);
      forall m | 0 <= m < k
        ensures GeminiTry(env, GeminiCall(GeminiModels[m], key, text)).Failure?
      {
        assert a.calls[m] == GeminiCall(GeminiModels[m], key, text);
      }
    }
  }

  /** Groq: one request, then `JSON.parse` of the answer as it stands */
  function CallGroq(env: Env, key: string, text: string): (a: Attempt)
    ensures a.calls == [Call(Groq, GroqModel, key, Strings.Prefix(text, Budget(Groq)))]
    ensures env.fetch(a.calls[0]).Failure? ==> a.outcome == Failure(env.fetch(a.calls[0]).error)
    ensures env.fetch(a.calls[0]).Success? ==> a.outcome == env.parse(env.fetch(a.calls[0]).value)
  {
    var call := Call(Groq, GroqModel, key, Strings.Prefix(text, Budget(Groq)));
    match env.fetch(call)
    case Failure(e) => Attempt(Failure(e), [call])
    case Success(raw) => Attempt(env.parse(raw), [call])
  }

  /** SambaNova: one request; the answer must contain a `{…}` span, which is
      parsed in place of the whole answer. */
  function CallSambaNova(env: Env, key: string, text: string): (a: Attempt)
    ensures a.calls == [Call(SambaNova, SambaNovaModel, key, Strings.Prefix(text, Budget(SambaNova)))]
    ensures env.fetch(a.calls[0]).Failure? ==> a.outcome == Failure(env.fetch(a.calls[0]).error)
    ensures env.fetch(a.calls[0]).Success? ==>
      var raw := env.fetch(a.calls[0]).value;
      && (Strings.MatchObject(raw).None? ==> a.outcome == Failure(QwenNoJson))
      && (Strings.MatchObject(raw).Some? ==> a.outcome == env.parse(Strings.MatchObject(raw).value))
  {
    var call := Call(SambaNova, SambaNovaModel, key, Strings.Prefix(text, Budget(SambaNova)));
    match env.fetch(call)
    case Failure(e) => Attempt(Failure(e), [call])
    case Success(content) =>
      match Strings.MatchObject(content)
      case None => Attempt(Failure(QwenNoJson), [call])
      case Some(json) => Attempt(env.parse(json), [call])
  }

  /** Cohere: one request; code fences are removed and the answer trimmed
      before the `{…}` span is taken and parsed. */
  function CallCohere(env: Env, key: string, text: string): (a: Attempt)
    ensures a.calls == [Call(Cohere, CohereModel, key, Strings.Prefix(text, Budget(Cohere)))]
    ensures env.fetch(a.calls[0]).Failure? ==> a.outcome == Failure(env.fetch(a.calls[0]).error)
    ensures env.fetch(a.calls[0]).Success? ==>
      var cleaned := Strings.StripFences(env.fetch(a.calls[0]).value);
      && (Strings.MatchObject(cleaned).None? ==> a.outcome == Failure(CohereNoJson))
      && (Strings.MatchObject(cleaned).Some? ==> a.outcome == env.parse(Strings.MatchObject(cleaned).value))
  {
    var call := Call(Cohere, CohereModel, key, Strings.Prefix(text, Budget(Cohere)));
    match env.fetch(call)
    case Failure(e) => Attempt(Failure(e), [call])
    case Success(content) =>
      var cleaned := Strings.StripFences(content);
      match Strings.MatchObject(cleaned)
      case None => Attempt(Failure(CohereNoJson), [call])
      case Some(json) => Attempt(env.parse(json), [call])
  }

  /** The adapter for `p`, called with credential `key` */
  function Invoke(env: Env, key: string, p: Provider, text: string): (a: Attempt)
    ensures 1 <= |a.calls| <= 3
    ensures forall c :: c in a.calls ==>
      c.provider == p && c.key == key && c.text == Strings.Prefix(text, Budget(p))
  {
    match p
    case Google => CallGoogle(env, key, text)
    case Groq => CallGroq(env, key, text)
    case SambaNova => CallSambaNova(env, key, text)
    case Cohere => CallCohere(env, key, text)
  }
}
