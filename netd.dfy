/**
 The netd AI client of pkg/ai/netd.go and the cache it reads through and
 writes through.

 `Parse` turns prompt fragments into a completion. It joins the fragments with
 single spaces, base64-encodes the result and derives a cache key from the
 client name `netd`, the configured language and that encoding. If the cache
 is enabled and holds a non-empty payload under the key, it decodes that
 payload and returns it without asking the backend. Otherwise it asks the
 backend and writes the base64 of the answer back under the key.

 The pure part (key derivation and `ParseStep`, which describes everything one
 call does) is stated as functions and lemmas. The objects the source updates
 in place (the client's configuration and the cache) are classes, and
 `NetdAIClient.Parse` is proved to do what `ParseStep` describes.
 */
module Netd {
  import opened Wrappers
  import opened GoStrings
  import Base64

  /** A Go `error` value, passed on unchanged wherever the source passes it on. */
  datatype Error =
    | NotFound(key: GoString)      // a cache asked to load a key it does not hold
    | Failure(message: string)     // any other failure of a collaborator, by its text

  /** The client name that `GetName` returns and that every key of this client carries. */
  const ClientName: GoString := Ascii("netd")

  /** The separator `Parse` joins the fragments with. */
  const Space: byte := 32

  /** The error `Configure` reports when no backend client could be built. */
  const ClientCreationError: Error := Failure("error creating NETD.FUN OpenAI client")

  /** `util.GetCacheKey(provider, language, encodedBody)`, whose body is not part of this model. */
  type KeyFunction = (GoString, GoString, GoString) -> GoString

  /** The remote completion service: the answer to (model, language, prompt). */
  type Remote = (GoString, GoString, GoString) -> Result<GoString, Error>

  /** The condition under which distinct key inputs never share a key. */
  ghost predicate Injective(keyOf: KeyFunction)
  {
    forall p, l, e, p', l', e' :: keyOf(p, l, e) == keyOf(p', l', e') ==> p == p' && l == l' && e == e'
  }

  // ---------------------------------------------------------------------
  // Key derivation
  // ---------------------------------------------------------------------

  /** The request body: the fragments joined with single spaces. */
  function RequestBody(prompt: seq<GoString>): GoString
  {
    Join(prompt, [Space])
  }

  /** The cache key of a request: the client name, the language and the base64 of the body. */
  function CacheKey(keyOf: KeyFunction, language: GoString, prompt: seq<GoString>): GoString
  {
    keyOf(ClientName, language, Base64.Encode(RequestBody(prompt)))
  }

  /**
   The key depends on the request only through the language and the joined
   body. When the key function is injective it depends on both: two requests
   share a key exactly when they agree on the language and on the joined body.
   */
  lemma KeyIdentifiesRequest(keyOf: KeyFunction, l1: GoString, p1: seq<GoString>, l2: GoString, p2: seq<GoString>)
    requires Injective(keyOf)
    ensures CacheKey(keyOf, l1, p1) == CacheKey(keyOf, l2, p2) <==> l1 == l2 && RequestBody(p1) == RequestBody(p2)
  {
    Base64.EncodeInjective(RequestBody(p1), RequestBody(p2));
  }

  /** Equal requests give equal keys, whatever the key function. */
  lemma KeyDeterministic(keyOf: KeyFunction, l1: GoString, p1: seq<GoString>, l2: GoString, p2: seq<GoString>)
    requires l1 == l2 && RequestBody(p1) == RequestBody(p2)
    ensures CacheKey(keyOf, l1, p1) == CacheKey(keyOf, l2, p2)
  {
  }

  /**
   For fragments without spaces the fragments themselves are recovered from
   the key: two such non-empty fragment lists in one language share a key
   exactly when they are equal.
   */
  lemma KeyIdentifiesFragments(keyOf: KeyFunction, language: GoString, p1: seq<GoString>, p2: seq<GoString>)
    requires Injective(keyOf)
    requires |p1| >= 1 && |p2| >= 1
    requires forall i | 0 <= i < |p1| :: Space !in p1[i]
    requires forall i | 0 <= i < |p2| :: Space !in p2[i]
    ensures CacheKey(keyOf, language, p1) == CacheKey(keyOf, language, p2) <==> p1 == p2
  {
    KeyIdentifiesRequest(keyOf, language, p1, language, p2);
    JoinInjective(p1, p2, Space);
  }

  /**
   Fragment boundaries are not part of the key: the single fragment `a b`
   and the fragments `a`, `b` share one, and so do no fragments and one
   empty fragment.
   */
  lemma KeyMergesFragments(keyOf: KeyFunction, language: GoString)
    ensures CacheKey(keyOf, language, [Ascii("a b")]) == CacheKey(keyOf, language, [Ascii("a"), Ascii("b")])
    ensures CacheKey(keyOf, language, []) == CacheKey(keyOf, language, [[]])
  {
    assert Ascii("a b") == Ascii("a") + [Space] + Ascii("b");
    JoinMerges(Ascii("a"), Ascii("b"), Space);
    JoinMerges([], [], Space);
  }

  /** A key of this client is never the key another client name would give, when the key function is injective. */
  lemma KeysSeparateClients(keyOf: KeyFunction, name: GoString, l1: GoString, body: GoString, l2: GoString, prompt: seq<GoString>)
    requires Injective(keyOf)
    requires name != ClientName
    ensures keyOf(name, l1, body) != CacheKey(keyOf, l2, prompt)
  {
  }

  // ---------------------------------------------------------------------
  // The cache store and what each of its operations answers
  // ---------------------------------------------------------------------

  /**
   A snapshot of a cache: what it holds, whether caching is switched off, and
   the failure, if any, that its medium reports on the next load or store.
   */
  datatype CacheState = CacheState(
    entries: map<GoString, GoString>,
    disabled: bool,
    loadFault: Option<Error>,
    storeFault: Option<Error>)

  /** What `Load(key)` answers in a given state. */
  function LoadResult(st: CacheState, key: GoString): (r: Result<GoString, Error>)
    ensures r.Ok? <==> st.loadFault.None? && key in st.entries
    ensures r.Ok? ==> r.value == st.entries[key]
  {
    if st.loadFault.Some? then Err(st.loadFault.value)
    else if key in st.entries then Ok(st.entries[key])
    else Err(NotFound(key))
  }

  /** What the read path of `Parse` finds for a key before it would ask the backend. */
  datatype CacheRead =
    | Hit(text: GoString)           // a non-empty payload that decoded
    | Miss                          // caching off, no entry, or an empty payload
    | Undecodable                   // a non-empty payload that did not decode
    | LoadFailed(err: Error)        // the load itself failed

  /** The read path: which of the four cases a key is in. */
  function ReadThrough(st: CacheState, key: GoString): CacheRead
  {
    if st.disabled || key !in st.entries then Miss
    else match LoadResult(st, key)
      case Err(e) => LoadFailed(e)
      case Ok(payload) =>
        if payload == [] then Miss
        else match Base64.Decode(payload)
          case None => Undecodable
          case Some(text) => Hit(text)
  }

  /** The pair (string, error) a Go call returns. */
  datatype Reply = Reply(text: GoString, err: Option<Error>)

  /**
   Everything one call of `Parse` does, as a value: what it returns, the
   prompts it sends to the backend, the (key, value) pairs it hands to
   `Store`, and what the cache holds afterwards.
   */
  datatype Step = Step(
    reply: Reply,
    asked: seq<GoString>,
    stored: seq<(GoString, GoString)>,
    entries: map<GoString, GoString>)

  /**
   One call of `Parse` for the given key and body, on a cache in state `st`,
   with `answer` the reply the backend gives if it is asked.
   */
  function ParseStep(key: GoString, body: GoString, st: CacheState, answer: Result<GoString, Error>): Step
  {
    match ReadThrough(st, key)
    case LoadFailed(e) => Step(Reply([], Some(e)), [], [], st.entries)
    case Undecodable => Step(Reply([], None), [], [], st.entries)
    case Hit(text) => Step(Reply(text, None), [], [], st.entries)
    case Miss =>
      match answer
      case Err(e) => Step(Reply([], Some(e)), [body], [], st.entries)
      case Ok(response) =>
        var value := Base64.Encode(response);
        if st.storeFault.Some? then Step(Reply([], None), [body], [(key, value)], st.entries)
        else Step(Reply(response, None), [body], [(key, value)], st.entries[key := value])
  }

  /**
   Cache hit: with caching on, the key present and a non-empty payload that
   decodes, the decoded text comes back with no error, the backend is not
   asked, nothing is stored and the cache is unchanged.
   */
  lemma HitBypassesBackend(key: GoString, body: GoString, st: CacheState, answer: Result<GoString, Error>, text: GoString)
    requires !st.disabled && key in st.entries && st.loadFault.None?
    requires st.entries[key] != [] && Base64.Decode(st.entries[key]) == Some(text)
    ensures ParseStep(key, body, st, answer) == Step(Reply(text, None), [], [], st.entries)
  {
  }

  /** A payload that does not decode gives an empty text and no error, with no backend call and no store. */
  lemma UndecodableGivesEmptyReply(key: GoString, body: GoString, st: CacheState, answer: Result<GoString, Error>)
    requires !st.disabled && key in st.entries && st.loadFault.None?
    requires st.entries[key] != [] && Base64.Decode(st.entries[key]).None?
    ensures ParseStep(key, body, st, answer) == Step(Reply([], None), [], [], st.entries)
  {
  }

  /** A failed load is returned unchanged, with no backend call and no store. */
  lemma LoadErrorPropagated(key: GoString, body: GoString, st: CacheState, answer: Result<GoString, Error>)
    requires !st.disabled && key in st.entries && st.loadFault.Some?
    ensures ParseStep(key, body, st, answer) == Step(Reply([], st.loadFault), [], [], st.entries)
  {
  }

  /**
   The backend is asked at most once, with the joined prompt, and it is asked
   exactly when caching is off, the key is absent, or the cached payload is
   empty (and could be loaded).
   */
  lemma BackendAskedOnMiss(key: GoString, body: GoString, st: CacheState, answer: Result<GoString, Error>)
    ensures var step := ParseStep(key, body, st, answer);
      step.asked == [] || step.asked == [body]
    ensures ParseStep(key, body, st, answer).asked == [body] <==>
      st.disabled || key !in st.entries || (st.loadFault.None? && st.entries[key] == [])
  {
  }

  /** A backend error is returned with an empty text, and nothing is stored. */
  lemma BackendErrorPropagated(key: GoString, body: GoString, st: CacheState, e: Error)
    requires ReadThrough(st, key) == Miss
    ensures ParseStep(key, body, st, Err(e)) == Step(Reply([], Some(e)), [body], [], st.entries)
  {
  }

  /**
   A backend success hands the base64 of the response to `Store` under the
   key, once. If the store succeeds the response is returned and that key is
   the only entry that changes; if it fails the text is empty, the error is
   swallowed and the cache keeps what it had.
   */
  lemma ResponseWrittenThrough(key: GoString, body: GoString, st: CacheState, response: GoString)
    requires ReadThrough(st, key) == Miss
    ensures var step := ParseStep(key, body, st, Ok(response));
      && step.stored == [(key, Base64.Encode(response))]
      && step.reply == (if st.storeFault.None? then Reply(response, None) else Reply([], None))
      && (st.storeFault.None? ==> key in step.entries && step.entries[key] == Base64.Encode(response))
      && (st.storeFault.Some? ==> step.entries == st.entries)
      && step.entries.Keys - {key} == st.entries.Keys - {key}
      && (forall k | k in st.entries && k != key :: step.entries[k] == st.entries[k])
  {
  }

  /**
   Round trip through the cache: after a successful write-through, the value
   that sits under the key is non-empty exactly when the response is, and
   decodes to exactly the response.
   */
  lemma StoredValueDecodesToResponse(key: GoString, body: GoString, st: CacheState, response: GoString)
    requires ReadThrough(st, key) == Miss && st.storeFault.None?
    ensures var step := ParseStep(key, body, st, Ok(response));
      && key in step.entries
      && Base64.Decode(step.entries[key]) == Some(response)
      && (step.entries[key] == [] <==> response == [])
  {
    Base64.RoundTrip(response);
  }

  /**
   Every non-empty text `Parse` returns comes with no error and is what the
   cache now holds under the key: either an entry that was already there or
   the response just written through.
   */
  lemma NonEmptyReplyIsCached(key: GoString, body: GoString, st: CacheState, answer: Result<GoString, Error>)
    ensures var step := ParseStep(key, body, st, answer);
      step.reply.text != [] ==>
        && step.reply.err.None?
        && key in step.entries
        && step.entries[key] != []
        && Base64.Decode(step.entries[key]) == Some(step.reply.text)
  {
    if ReadThrough(st, key) == Miss && answer.Ok? && st.storeFault.None? {
      StoredValueDecodesToResponse(key, body, st, answer.value);
    }
  }

  /**
   Errors come only from a failed load or from the backend, are passed on
   unchanged, and always with an empty text.
   */
  lemma ErrorsPassedOnUnchanged(key: GoString, body: GoString, st: CacheState, answer: Result<GoString, Error>)
    ensures var step := ParseStep(key, body, st, answer);
      step.reply.err.Some? ==>
        && step.reply.text == []
        && (step.reply.err == st.loadFault || answer == Err(step.reply.err.value))
  {
  }

  /**
   The second of two calls with the same key is a hit: after a written-through
   non-empty response, a call on the updated cache returns that response
   without asking the backend, whatever the backend would answer now.
   */
  lemma SecondCallHits(key: GoString, body: GoString, st: CacheState, response: GoString, later: Result<GoString, Error>)
    requires ReadThrough(st, key) == Miss
    requires !st.disabled && st.loadFault.None? && st.storeFault.None?
    requires response != []
    ensures var first := ParseStep(key, body, st, Ok(response));
      var second := ParseStep(key, body, st.(entries := first.entries), later);
      && first.reply == Reply(response, None)
      && second == Step(Reply(response, None), [], [], first.entries)
  {
    StoredValueDecodesToResponse(key, body, st, response);
  }

  /**
   An empty response is written through as an empty payload, which the read
   path treats as a miss: the next call asks the backend again.
   */
  lemma EmptyResponseAskedAgain(key: GoString, body: GoString, st: CacheState, later: Result<GoString, Error>)
    requires ReadThrough(st, key) == Miss
    requires !st.disabled && st.loadFault.None? && st.storeFault.None?
    ensures var first := ParseStep(key, body, st, Ok([]));
      var second := ParseStep(key, body, st.(entries := first.entries), later);
      && first.entries[key] == []
      && second.asked == [body]
  {
  }

  // ---------------------------------------------------------------------
  // The objects
  // ---------------------------------------------------------------------

  /**
   The cache.ICache collaborator: a key/value text store with a global
   disable flag. Whether the next load or store fails is part of its state
   (`loadFault`, `storeFault`), standing for the condition of its medium.
   `stores` records every pair handed to `Store`.
   */
  class Cache {
    var entries: map<GoString, GoString>
    var disabled: bool
    var loadFault: Option<Error>
    var storeFault: Option<Error>
    ghost var stores: seq<(GoString, GoString)>

    function State(): CacheState
      reads this
    {
      CacheState(entries, disabled, loadFault, storeFault)
    }

    constructor (disabled: bool, loadFault: Option<Error>, storeFault: Option<Error>)
      ensures entries == map[] && stores == []
      ensures this.disabled == disabled && this.loadFault == loadFault && this.storeFault == storeFault
    {
      this.entries := map[];
      this.disabled := disabled;
      this.loadFault := loadFault;
      this.storeFault := storeFault;
      this.stores := [];
    }

    method IsCacheDisabled() returns (b: bool)
      ensures b == disabled
    {
      b := disabled;
    }

    method Exists(key: GoString) returns (b: bool)
      ensures b <==> key in entries
    {
      b := key in entries;
    }

    method Load(key: GoString) returns (r: Result<GoString, Error>)
      ensures r == LoadResult(State(), key)
      ensures r.Ok? ==> key in entries && r.value == entries[key]
    {
      if loadFault.Some? {
        r := Err(loadFault.value);
      } else if key in entries {
        r := Ok(entries[key]);
      } else {
        r := Err(NotFound(key));
      }
    }

    method Store(key: GoString, value: GoString) returns (err: Option<Error>)
      modifies this`entries, this`stores
      ensures stores == old(stores) + [(key, value)]
      ensures err == storeFault
      ensures entries == if err.None? then old(entries)[key := value] else old(entries)
    {
      stores := stores + [(key, value)];
      err := storeFault;
      if err.None? {
        entries := entries[key := value];
      }
    }
  }

  /** The part of the AI configuration the netd client reads. */
  datatype AIConfig = AIConfig(password: GoString, model: GoString)

  /**
   NetdAIClient: the configured language and model, the key function and the
   remote service it talks to, and (`sent`) every prompt it has sent there.
   */
  class NetdAIClient {
    var language: GoString
    var model: GoString
    const getCacheKey: KeyFunction
    const remote: Remote
    ghost var sent: seq<GoString>

    constructor (getCacheKey: KeyFunction, remote: Remote)
      ensures language == [] && model == [] && sent == []
      ensures this.getCacheKey == getCacheKey && this.remote == remote
    {
      this.language := [];
      this.model := [];
      this.getCacheKey := getCacheKey;
      this.remote := remote;
      this.sent := [];
    }

    function GetName(): GoString
    {
      ClientName
    }

    /**
     Sets the language and model; `clientCreated` is whether the OpenAI
     client library handed back a client. If it did not, the error is
     reported and nothing changes.
     */
    method Configure(config: AIConfig, lang: GoString, clientCreated: bool) returns (err: Option<Error>)
      modifies this`language, this`model
      ensures clientCreated ==> err.None? && language == lang && model == config.model
      ensures !clientCreated ==> err == Some(ClientCreationError) && language == old(language) && model == old(model)
    {
      if !clientCreated {
        return Some(ClientCreationError);
      }
      language := lang;
      model := config.model;
      err := None;
    }

    /** Sends the prompt to the remote service, once, and returns its answer as a Go pair. */
    method GetCompletion(prompt: GoString) returns (text: GoString, err: Option<Error>)
      modifies this`sent
      ensures sent == old(sent) + [prompt]
      ensures match remote(model, language, prompt)
        case Ok(t) => text == t && err.None?
        case Err(e) => text == [] && err == Some(e)
    {
      sent := sent + [prompt];
      match remote(model, language, prompt)
      case Ok(t) => text, err := t, None;
      case Err(e) => text, err := [], Some(e);
    }

    /** The request's key in this client's configuration. */
    ghost function KeyOf(prompt: seq<GoString>): GoString
      reads this
    {
      CacheKey(getCacheKey, language, prompt)
    }

    /** What the remote service answers to the request's body in this client's configuration. */
    ghost function AnswerTo(prompt: seq<GoString>): Result<GoString, Error>
      reads this
    {
      remote(model, language, RequestBody(prompt))
    }

    /**
     Read-through, write-through completion: does what `ParseStep` describes
     for this client's key and body, on the cache as it was before the call,
     with the answer the remote service gives.
     */
    method Parse(prompt: seq<GoString>, cache: Cache) returns (text: GoString, err: Option<Error>)
      modifies this`sent, cache`entries, cache`stores
      ensures var step := ParseStep(KeyOf(prompt), RequestBody(prompt), old(cache.State()), AnswerTo(prompt));
        && Reply(text, err) == step.reply
        && sent == old(sent) + step.asked
        && cache.stores == old(cache.stores) + step.stored
        && cache.entries == step.entries
    {
      var inputKey := Join(prompt, [Space]);
      var sEnc := Base64.Encode(inputKey);
      var cacheKey := getCacheKey(GetName(), language, sEnc);

      var off := cache.IsCacheDisabled();
      var present := false;
      if !off {
        present := cache.Exists(cacheKey);
      }
      if present {
        var loaded := cache.Load(cacheKey);
        if loaded.Err? {
          return [], Some(loaded.error);
        }
        var response := loaded.value;
        if response != [] {
          var output := Base64.Decode(response);
          if output.None? {
            return [], None;
          }
          return output.value, None;
        }
      }

      var response, backendErr := GetCompletion(inputKey);
      if backendErr.Some? {
        return [], backendErr;
      }

      var storeErr := cache.Store(cacheKey, Base64.Encode(response));
      if storeErr.Some? {
        return [], None;
      }
      return response, None;
    }
  }

  /**
   Two calls with the same prompt on a working, enabled cache that does not
   hold the key yet: both return the backend's non-empty response, and the
   backend is asked only once.
   */
  method ParseTwice(client: NetdAIClient, cache: Cache, prompt: seq<GoString>) returns (first: GoString, second: GoString)
    requires !cache.disabled && cache.loadFault.None? && cache.storeFault.None?
    requires client.KeyOf(prompt) !in cache.entries
    requires client.AnswerTo(prompt).Ok? && client.AnswerTo(prompt).value != []
    modifies client`sent, cache`entries, cache`stores
    ensures first == client.AnswerTo(prompt).value && second == first
    ensures client.sent == old(client.sent) + [RequestBody(prompt)]
  {
    ghost var st := cache.State();
    var err;
    first, err := client.Parse(prompt, cache);
    SecondCallHits(client.KeyOf(prompt), RequestBody(prompt), st, client.AnswerTo(prompt).value, client.AnswerTo(prompt));
    second, err := client.Parse(prompt, cache);
  }
}
