/** The analysis endpoint's decision procedure: reject a request without
    text, serve an explicitly requested provider with no fallback, or run
    the automatic cascade Google, SambaNova, Groq, Cohere until one
    succeeds. The reply records the adapters invoked and every outbound
    request in order, so that what was NOT called can be stated too. */
module Handler {
  import opened Wrappers
  import opened Providers
  import Strings

  /** The request body's two fields; `None` is a field that is absent */
  datatype Request = Request(text: Option<string>, preferredProvider: Option<string>)

  /** The credential environment variables; a provider missing from the map
      has no variable set. */
  type Keys = map<Provider, string>

  datatype Body = Analysis(result: Json) | Error(message: string)

  /** HTTP status, JSON body, adapters invoked and outbound requests sent */
  datatype Reply = Reply(status: int, body: Body, invoked: seq<Provider>, calls: seq<Call>)

  const MissingText := "No hay texto."
  const AllFailed := "Todos los proveedores gratuitos fallaron. Log: "

  /** The automatic cascade's fixed order */
  const Priority: seq<Provider> := [Google, SambaNova, Groq, Cohere]

  /** JavaScript truthiness of an optional string field */
  predicate Truthy(v: Option<string>) {
    v.Some? && v.value != ""
  }

  /** A provider is usable when its variable is set to a non-empty string. */
  predicate Configured(keys: Keys, p: Provider) {
    p in keys && keys[p] != ""
  }

  /** The only falsy values a string field can hold are `undefined` and "". */
  lemma FalsyFields(v: Option<string>)
    ensures !Truthy(v) <==> v == None || v == Some("")
  {
  }

  /** `keys.<name>` is `undefined` for a provider with no variable, and the
      provider is usable exactly when that lookup is truthy. */
  lemma ConfiguredIsTruthyKey(keys: Keys, p: Provider)
    ensures Configured(keys, p) <==> Truthy(if p in keys then Some(keys[p]) else None)
  {
  }

  /** The name a caller uses to request a provider */
  function SelectorName(p: Provider): string {
    match p
    case Google => "google"
    case Groq => "groq"
    case SambaNova => "sambanova"
    case Cohere => "cohere"
  }

  /** The name a provider goes by in the cascade's failure log */
  function LogName(p: Provider): string {
    match p
    case Google => "Google"
    case Groq => "Groq"
    case SambaNova => "SambaNova"
    case Cohere => "Cohere"
  }

  /** The selector's refusal naming the requested provider */
  function NotConfigured(name: string): string {
    "El proveedor " + name + " no está configurado o falló."
  }

  /** The requested name can be read back from the refusal, so distinct names
      give distinct messages. */
  lemma NotConfiguredNamesRequest(name: string)
    ensures |NotConfigured(name)| == |name| + 42
    ensures NotConfigured(name)[13..13 + |name|] == name
  {
  }

  /** One failure-log entry */
  function Entry(p: Provider, message: string): string {
    LogName(p) + ": " + message + "; "
  }

  /** The provider's name and the error message can be read back from an
      entry: the name, ": ", the message, "; ". */
  lemma EntryReadsBack(p: Provider, message: string)
    ensures var e := Entry(p, message);
      && |e| == |LogName(p)| + |message| + 4
      && e[..|LogName(p)|] == LogName(p)
      && e[|LogName(p)|..|LogName(p)| + 2] == ": "
      && e[|LogName(p)| + 2..|e| - 2] == message
      && e[|e| - 2..] == "; "
  {
  }

  /** What calling each provider's adapter would yield. The cascade and the
      selector are stated over any such oracle; `Outcomes` is the one the
      endpoint uses. */
  type Oracle = Provider -> Attempt

  /** Each adapter called with its own credential on the request's text */
  function Outcomes(env: Env, keys: Keys, text: string): Oracle {
    p => Invoke(env, if p in keys then keys[p] else "", p, text)
  }

  /** `p` has a key and its call succeeds */
  predicate Succeeds(call: Oracle, keys: Keys, p: Provider) {
    Configured(keys, p) && call(p).outcome.Success?
  }

  /** The request handler, after the CORS headers and the OPTIONS pre-flight */
  function Handle(env: Env, keys: Keys, req: Request): (r: Reply)
    ensures r.status == 200 || r.status == 400 || r.status == 500
    ensures r.status == 400 <==> !Truthy(req.text)
    ensures r.status == 400 ==> r.body == Error(MissingText) && r.invoked == [] && r.calls == []
    ensures r.status == 200 ==> r.body.Analysis?
    ensures r.status == 500 ==> r.body.Error?
  {
    if !Truthy(req.text) then Reply(400, Error(MissingText), [], [])
    else if Truthy(req.preferredProvider) then
      Select(Outcomes(env, keys, req.text.value), keys, req.preferredProvider.value)
    else
      Cascade(Outcomes(env, keys, req.text.value), keys, Priority, "")
  }

  /** The reply to a call of provider `p` alone */
  function Single(call: Oracle, p: Provider): (r: Reply)
    ensures r.invoked == [p] && r.calls == call(p).calls
    ensures r.status == 200 <==> call(p).outcome.Success?
    ensures r.status == 200 ==> r.body == Analysis(call(p).outcome.value)
    ensures r.status != 200 ==> r.status == 500 && r.body == Error(call(p).outcome.error)
  {
    var a := call(p);
    match a.outcome
    case Success(v) => Reply(200, Analysis(v), [p], a.calls)
    case Failure(e) => Reply(500, Error(e), [p], a.calls)
  }

  /** Strict selection: the named provider if it is configured, and nothing
      else, whatever its outcome. */
  function Select(call: Oracle, keys: Keys, name: string): (r: Reply)
    ensures |r.invoked| <= 1
    ensures r.invoked == [] <==> forall p :: SelectorName(p) == name ==> !Configured(keys, p)
    ensures r.invoked == [] ==> r == Reply(500, Error(NotConfigured(name)), [], [])
    ensures r.invoked != [] ==>
      && SelectorName(r.invoked[0]) == name
      && Configured(keys, r.invoked[0])
      && r == Single(call, r.invoked[0])
  {
    if name == "google" && Configured(keys, Google) then Single(call, Google)
    else if name == "groq" && Configured(keys, Groq) then Single(call, Groq)
    else if name == "sambanova" && Configured(keys, SambaNova) then Single(call, SambaNova)
    else if name == "cohere" && Configured(keys, Cohere) then Single(call, Cohere)
    else Reply(500, Error(NotConfigured(name)), [], [])
  }

  /** The automatic cascade over `order`, `log` holding the entries of the
      providers that already failed */
  function Cascade(call: Oracle, keys: Keys, order: seq<Provider>, log: string): (r: Reply)
    ensures r.status == 200 || r.status == 500
    ensures r.status == 200 ==> r.body.Analysis?
    ensures r.status == 500 ==> r.body.Error?
    ensures |r.invoked| <= |order|
    decreases |order|
  {
    if order == [] then Reply(500, Error(AllFailed + log), [], [])
    else if !Configured(keys, order[0]) then Cascade(call, keys, order[1..], log)
    else
      var p := order[0];
      var a := call(p);
      match a.outcome
      case Success(v) => Reply(200, Analysis(v), [p], a.calls)
      case Failure(e) =>
        var rest := Cascade(call, keys, order[1..], log + Entry(p, e));
        rest.(invoked := [p] + rest.invoked, calls := a.calls + rest.calls)
  }

  // ---------------------------------------------------------------------
  // Reference definitions the cascade is measured against

  /** The providers of `order` that have a key, in that order */
  function Keyed(keys: Keys, order: seq<Provider>): (r: seq<Provider>)
    ensures forall p :: p in r <==> p in order && Configured(keys, p)
    ensures |r| <= |order|
  {
    if order == [] then []
    else (if Configured(keys, order[0]) then [order[0]] else []) + Keyed(keys, order[1..])
  }

  /** The outbound requests of the providers `ps`, one after the other */
  function CallsOf(call: Oracle, ps: seq<Provider>): seq<Call> {
    if ps == [] then [] else call(ps[0]).calls + CallsOf(call, ps[1..])
  }

  /** The log entries of the failed providers `ps`, in order */
  function FailureLog(call: Oracle, ps: seq<Provider>): (log: string)
    requires forall p :: p in ps ==> call(p).outcome.Failure?
    ensures log == "" <==> ps == []
    ensures ps != [] ==> |log| >= |LogName(ps[0])| + 4
    ensures ps != [] ==> log[..|LogName(ps[0])| + 2] == LogName(ps[0]) + ": "
    ensures ps != [] ==> log[|log| - 2..] == "; "
  {
    if ps == [] then ""
    else
      assert ps[0] in ps;
      Entry(ps[0], call(ps[0]).outcome.error) + FailureLog(call, ps[1..])
  }

  // ---------------------------------------------------------------------
  // The cascade, for any oracle

  /** The log after the cascade has passed `p` */
  function NextLog(call: Oracle, keys: Keys, p: Provider, log: string): string {
    if Configured(keys, p) && call(p).outcome.Failure? then log + Entry(p, call(p).outcome.error) else log
  }

  /** The cascade calls keyed providers only, in order, skipping none, and
      sends exactly their requests. */
  lemma {:induction false} CascadeInvokesKeyedPrefix(call: Oracle, keys: Keys, order: seq<Provider>, log: string)
    ensures var r := Cascade(call, keys, order, log);
      && r.invoked <= Keyed(keys, order)
      && r.calls == CallsOf(call, r.invoked)
    decreases |order|
  {
    if order != [] {
      var p := order[0];
      CascadeInvokesKeyedPrefix(call, keys, order[1..], NextLog(call, keys, p, log));
      if Configured(keys, p) {
        var r := Cascade(call, keys, order, log);
        if call(p).outcome.Failure? {
          assert r.invoked[1..] == Cascade(call, keys, order[1..], NextLog(call, keys, p, log)).invoked;
        } else {
          assert CallsOf(call, [p]) == call(p).calls + CallsOf(call, []);
        }
      }
    }
  }

  /** The cascade answers 200 exactly when some keyed provider of the order
      succeeds. */
  lemma {:induction false} CascadeSucceedsIffSomeSucceeds(call: Oracle, keys: Keys, order: seq<Provider>, log: string)
    ensures Cascade(call, keys, order, log).status == 200 <==> exists p :: p in order && Succeeds(call, keys, p)
    decreases |order|
  {
    if order != [] {
      var p := order[0];
      var rest := Cascade(call, keys, order[1..], NextLog(call, keys, p, log));
      CascadeSucceedsIffSomeSucceeds(call, keys, order[1..], NextLog(call, keys, p, log));
      assert forall q :: q in order <==> q == p || q in order[1..];
      if Succeeds(call, keys, p) {
        assert Cascade(call, keys, order, log).status == 200;
      } else {
        assert Cascade(call, keys, order, log).status == rest.status;
      }
    }
  }

  /** A 200 reply carries the result of the last provider invoked, which
      succeeded, and every provider invoked before it failed. */
  lemma {:induction false} CascadeServesFirstSuccess(call: Oracle, keys: Keys, order: seq<Provider>, log: string)
    ensures var r := Cascade(call, keys, order, log);
      r.status == 200 ==>
        && |r.invoked| > 0
        && var last := r.invoked[|r.invoked| - 1];
        && Succeeds(call, keys, last)
        && r.body == Analysis(call(last).outcome.value)
        && forall k :: 0 <= k < |r.invoked| - 1 ==> !Succeeds(call, keys, r.invoked[k])
    decreases |order|
  {
    if order != [] {
      var p := order[0];
      CascadeServesFirstSuccess(call, keys, order[1..], NextLog(call, keys, p, log));
      if Configured(keys, p) && !Succeeds(call, keys, p) {
        var rest := Cascade(call, keys, order[1..], NextLog(call, keys, p, log));
        assert Cascade(call, keys, order, log).invoked == [p] + rest.invoked;
      }
    }
  }

  /** The first keyed provider that succeeds is served: the cascade answers
      200 exactly when one exists, with the result of the last provider
      invoked, all earlier ones having failed. */
  lemma CascadeFirstSuccessWins(call: Oracle, keys: Keys, order: seq<Provider>, log: string)
    ensures var r := Cascade(call, keys, order, log);
      && (r.status == 200 <==> exists p :: p in order && Succeeds(call, keys, p))
      && (r.status == 200 ==>
            && |r.invoked| > 0
            && var last := r.invoked[|r.invoked| - 1];
            && Succeeds(call, keys, last)
            && r.body == Analysis(call(last).outcome.value)
            && forall k :: 0 <= k < |r.invoked| - 1 ==> !Succeeds(call, keys, r.invoked[k]))
  {
    CascadeSucceedsIffSomeSucceeds(call, keys, order, log);
    CascadeServesFirstSuccess(call, keys, order, log);
  }

  /** When no keyed provider succeeds, every keyed provider was tried and
      the 500 message carries one entry per attempt, in attempt order. */
  lemma {:induction false} CascadeTotalFailure(call: Oracle, keys: Keys, order: seq<Provider>, log: string)
    ensures var r := Cascade(call, keys, order, log);
      r.status == 500 ==>
        && r.invoked == Keyed(keys, order)
        && (forall p :: p in r.invoked ==> call(p).outcome.Failure?)
        && r.body == Error(AllFailed + log + FailureLog(call, r.invoked))
    decreases |order|
  {
    if order == [] {
      assert AllFailed + log + "" == AllFailed + log;
    } else {
      var p := order[0];
      var log' := NextLog(call, keys, p, log);
      CascadeTotalFailure(call, keys, order[1..], log');
      var r := Cascade(call, keys, order, log);
      if Configured(keys, p) && call(p).outcome.Failure? && r.status == 500 {
        var e := call(p).outcome.error;
        var rest := Cascade(call, keys, order[1..], log');
        assert r.invoked == [p] + rest.invoked;
        assert r.invoked[1..] == rest.invoked;
        var tailLog := FailureLog(call, rest.invoked);
        assert FailureLog(call, r.invoked) == Entry(p, e) + tailLog;
        LogRegroups(AllFailed, log, Entry(p, e), tailLog);
      }
    }
  }

  /** Appending an entry to the log and then the rest of the log is the same
      as appending the entry followed by the rest. */
  lemma LogRegroups(head: string, log: string, entry: string, tail: string)
    ensures head + (log + entry) + tail == head + log + (entry + tail)
  {
  }

  /** Every request in `CallsOf(call, ps)` was sent by one of `ps`. */
  lemma {:induction false} CallsOfMembers(call: Oracle, ps: seq<Provider>)
    ensures forall c :: c in CallsOf(call, ps) ==> exists p :: p in ps && c in call(p).calls
  {
    if ps != [] {
      CallsOfMembers(call, ps[1..]);
      assert forall q :: q in ps[1..] ==> q in ps;
    }
  }

  lemma KeyedCons(keys: Keys, p: Provider, rest: seq<Provider>)
    ensures Keyed(keys, [p] + rest) == (if Configured(keys, p) then [p] else []) + Keyed(keys, rest)
  {
    assert ([p] + rest)[1..] == rest;
  }

  /** The keyed providers in automatic order: Google, SambaNova, Groq,
      Cohere, each present exactly when its key is. */
  lemma KeyedPriority(keys: Keys)
    ensures Keyed(keys, Priority)
         == (if Configured(keys, Google) then [Google] else [])
          + ((if Configured(keys, SambaNova) then [SambaNova] else [])
          + ((if Configured(keys, Groq) then [Groq] else [])
          + (if Configured(keys, Cohere) then [Cohere] else [])))
  {
    var c: seq<Provider> := [Cohere];
    var gc := [Groq] + c;
    var sgc := [SambaNova] + gc;
    assert Priority == [Google] + sgc;
    KeyedCons(keys, Google, sgc);
    KeyedCons(keys, SambaNova, gc);
    KeyedCons(keys, Groq, c);
    KeyedCons(keys, Cohere, []);
    assert [Cohere] + [] == c;
    assert (if Configured(keys, Cohere) then [Cohere] else []) + [] == (if Configured(keys, Cohere) then [Cohere] else []);
  }

  // ---------------------------------------------------------------------
  // The endpoint

  /** A request without text is refused before any provider is touched. */
  lemma MissingTextRejected(env: Env, keys: Keys, req: Request)
    requires req.text == None || req.text == Some("")
    ensures Handle(env, keys, req) == Reply(400, Error(MissingText), [], [])
  {
  }

  /** A requested provider that is configured is the only one invoked; its
      result is a 200, its error a 500 carrying the error's message. */
  lemma StrictSelection(env: Env, keys: Keys, req: Request, p: Provider)
    requires Truthy(req.text)
    requires req.preferredProvider == Some(SelectorName(p)) && Configured(keys, p)
    ensures var r := Handle(env, keys, req);
      var a := Invoke(env, keys[p], p, req.text.value);
      && r.invoked == [p]
      && r.calls == a.calls
      && (a.outcome.Success? ==> r.status == 200 && r.body == Analysis(a.outcome.value))
      && (a.outcome.Failure? ==> r.status == 500 && r.body == Error(a.outcome.error))
  {
  }

  /** A requested provider that is unknown or has no key is refused with a
      500 naming it, and nothing is invoked. */
  lemma UnconfiguredSelection(env: Env, keys: Keys, req: Request)
    requires Truthy(req.text) && Truthy(req.preferredProvider)
    requires forall p :: SelectorName(p) == req.preferredProvider.value ==> !Configured(keys, p)
    ensures Handle(env, keys, req) == Reply(500, Error(NotConfigured(req.preferredProvider.value)), [], [])
  {
  }

  /** An empty preferred provider is falsy: the request is handled as if
      none were given. */
  lemma EmptyPreferenceIsAutomatic(env: Env, keys: Keys, req: Request)
    requires req.preferredProvider == Some("")
    ensures Handle(env, keys, req) == Handle(env, keys, req.(preferredProvider := None))
  {
  }

  /** Automatic mode: the keyed providers are tried in priority order up to
      the first success, whose result is the 200 reply; if none succeeds,
      all were tried and the 500 message logs each failure in order. */
  lemma AutomaticCascade(env: Env, keys: Keys, req: Request)
    requires Truthy(req.text) && !Truthy(req.preferredProvider)
    ensures var r := Handle(env, keys, req);
      var call := Outcomes(env, keys, req.text.value);
      && r.invoked <= Keyed(keys, Priority)
      && r.calls == CallsOf(call, r.invoked)
      && (r.status == 200 <==> exists p :: p in Priority && Succeeds(call, keys, p))
      && (r.status == 200 ==>
            && |r.invoked| > 0
            && var last := r.invoked[|r.invoked| - 1];
            && Succeeds(call, keys, last)
            && r.body == Analysis(call(last).outcome.value)
            && forall k :: 0 <= k < |r.invoked| - 1 ==> !Succeeds(call, keys, r.invoked[k]))
      && (r.status == 500 ==>
            && r.invoked == Keyed(keys, Priority)
            && (forall p :: p in r.invoked ==> call(p).outcome.Failure?)
            && r.body == Error(AllFailed + FailureLog(call, r.invoked)))
  {
    var call := Outcomes(env, keys, req.text.value);
    CascadeInvokesKeyedPrefix(call, keys, Priority, "");
    CascadeFirstSuccessWins(call, keys, Priority, "");
    CascadeTotalFailure(call, keys, Priority, "");
    assert AllFailed + "" == AllFailed;
  }

  /** Whatever the mode, every outbound request belongs to an invoked,
      keyed provider, carries that provider's own key, and embeds the
      request's text cut to that provider's budget. */
  lemma RequestsStayWithInvokedProviders(env: Env, keys: Keys, req: Request)
    ensures var r := Handle(env, keys, req);
      forall c :: c in r.calls ==>
        && c.provider in r.invoked
        && Configured(keys, c.provider)
        && c.key == keys[c.provider]
        && c.text == Strings.Prefix(req.text.value, Budget(c.provider))
  {
    var r := Handle(env, keys, req);
    if Truthy(req.text) {
      var call := Outcomes(env, keys, req.text.value);
      if !Truthy(req.preferredProvider) {
        CascadeInvokesKeyedPrefix(call, keys, Priority, "");
        CallsOfMembers(call, r.invoked);
      }
    }
  }

  /** With no key at all, automatic mode calls nothing and logs nothing. */
  lemma NoKeysEmptyLog(env: Env, keys: Keys, req: Request)
    requires Truthy(req.text) && !Truthy(req.preferredProvider)
    requires forall p :: !Configured(keys, p)
    ensures Handle(env, keys, req) == Reply(500, Error(AllFailed), [], [])
  {
    var call := Outcomes(env, keys, req.text.value);
    KeyedPriority(keys);
    CascadeFirstSuccessWins(call, keys, Priority, "");
    CascadeTotalFailure(call, keys, Priority, "");
    CascadeInvokesKeyedPrefix(call, keys, Priority, "");
    assert AllFailed + "" + "" == AllFailed;
  }
}
