# netd completion cache, modelled in Dafny

This project models the read-through, write-through completion cache of the
netd AI client of k8sgpt (`NetdAIClient.Parse` in pkg/ai/netd.go), together
with the cache-key derivation and the base64 coding that it uses.

`Parse` works in five steps:

1. It joins the prompt fragments with single spaces.
2. It base64-encodes the joined body: standard alphabet, `=` padding, RFC 4648 section 4.
3. It derives a cache key from the client name `netd`, the configured language and the encoded body.
4. If caching is enabled and the key exists, it loads the payload. A load error is returned. A non-empty payload is decoded and returned. A payload that does not decode gives an empty text with no error.
5. Otherwise it asks the completion backend. A backend error is returned. A success is stored as base64 under the key. The response is returned if the store succeeds, and an empty text with no error if the store fails.

Files:

- `wrappers.dfy`: `Option` and `Result`.
- `gostrings.dfy` (module `GoStrings`): Go strings as byte sequences, `strings.Join`, and `Split` as its reference inverse.
- `base64.dfy` (module `Base64`): Go's `base64.StdEncoding` encoder and decoder, with the round trip proved.
- `netd.dfy` (module `Netd`): the key derivation; `ParseStep`, a pure description of everything one call of `Parse` does; the cache store and the client as classes. `NetdAIClient.Parse` is proved to do what `ParseStep` describes, and the caching properties are lemmas about `ParseStep`.

Collaborators that the model cannot see are stood in for as follows:

- `util.GetCacheKey` is the client's `getCacheKey` field, a function-valued constant. Uniqueness lemmas require it to be injective.
- The remote service is the client's `remote` field. It gives the answer to (model, language, prompt). The ghost field `sent` records each prompt sent to it.
- The cache is the class `Cache`. Its fields `loadFault` and `storeFault` say whether its medium fails the next load or store. The ghost field `stores` records each pair handed to `Store`.
- The check `client == nil` in `Configure` is the parameter `clientCreated`.

Some of what the code does may surprise a caller; the model follows the code:

- When `Store` fails, the code returns `("", nil)`, not the completion (pkg/ai/netd.go:92-95).
- Callers can get an empty text with no error. This happens for a payload that does not decode, for a failed store, and for an empty backend answer. It also happens for a payload made only of newlines, which Go's decoder skips (`Base64.NewlineDecodesToEmpty`).
- Keys do not keep fragment boundaries. The fragment `a b` and the fragments `a`, `b` share a key, because the fragments are joined before anything is encoded (`Netd.KeyMergesFragments`). Distinct fragment lists get distinct keys only when no fragment holds a space (`Netd.KeyIdentifiesFragments`).
- An empty backend answer is stored as an empty payload. The read path treats an empty payload as a miss, so the backend is asked again on the next call (`Netd.EmptyResponseAskedAgain`).

## Model

| member | source | states |
|---|---|---|
| `GoStrings.SplitJoin` | pkg/ai/netd.go:63 | splitting the space-joined body on spaces gives back the fragments, when there is at least one and none holds a space |
| `GoStrings.JoinInjective` | pkg/ai/netd.go:63 | under those conditions two fragment lists join to the same body exactly when they are equal |
| `GoStrings.JoinMerges` | pkg/ai/netd.go:63 | without them the join is not injective: `x sep y` and `[x, y]` join alike, and so do `[]` and `[""]` |
| `Base64.Encode` | pkg/ai/netd.go:65 | the encoding has 4 characters per started group of 3 bytes and is empty exactly when the input is |
| `Base64.EncodeAlphabet` | pkg/ai/netd.go:65 | every character of an encoding is in the standard alphabet or is `=` |
| `Base64.DecodeQuanta` | pkg/ai/netd.go:75 | a successful decode consumed groups of four for exactly as many bytes as it produced |
| `Base64.RoundTrip` | pkg/ai/netd.go:90 | decoding the base64 of any byte string yields exactly that byte string |
| `Base64.EncodeInjective` | pkg/ai/netd.go:65 | two byte strings have the same encoding exactly when they are equal |
| `Base64.DecodedLength` | pkg/ai/netd.go:75 | any decodable payload, with its newlines removed, is exactly as long as the encoding of what it decodes to |
| `Base64.NewlineDecodesToEmpty` | pkg/ai/netd.go:74-75 | the non-empty payload `\n` decodes without error to the empty string |
| `Base64.LeftoverBitsIgnored` | pkg/ai/netd.go:75 | the non-strict decoder accepts the non-canonical `QR==` as `A`, as it does `QQ==` |
| `Base64.EncodeOneLetter` | pkg/ai/netd.go:65 | the encoding of `A` is the canonical `QQ==` |
| `Netd.KeyDeterministic` | pkg/ai/netd.go:63-66 | requests with the same language and joined body get the same key, for any key function |
| `Netd.KeyIdentifiesRequest` | pkg/ai/netd.go:63-66 | with an injective key function, two requests share a key exactly when language and joined body agree |
| `Netd.KeyIdentifiesFragments` | pkg/ai/netd.go:63-66 | with an injective key function, non-empty space-free fragment lists share a key exactly when they are equal |
| `Netd.KeyMergesFragments` | pkg/ai/netd.go:63-66 | `["a b"]` and `["a", "b"]` share a key, and so do `[]` and `[""]` |
| `Netd.KeysSeparateClients` | pkg/ai/netd.go:22-24 | with an injective key function, no key derived under another client name equals a key of the `netd` client |
| `Netd.LoadResult` | pkg/ai/netd.go:69 | a load succeeds exactly when the medium does not fail and the key is held, and then yields the held payload |
| `Netd.HitBypassesBackend` | pkg/ai/netd.go:68-80 | with caching on, the key present and a non-empty decodable payload, the decoded text is returned with no error, the backend is not asked, nothing is stored and the cache is unchanged |
| `Netd.UndecodableGivesEmptyReply` | pkg/ai/netd.go:75-79 | a non-empty payload that does not decode gives `("", nil)`, with no backend call and no store |
| `Netd.LoadErrorPropagated` | pkg/ai/netd.go:69-72 | a load error is returned unchanged with an empty text, with no backend call and no store |
| `Netd.BackendAskedOnMiss` | pkg/ai/netd.go:68-84 | the backend is asked at most once, with the joined prompt, and exactly when caching is off, the key is absent, or the loaded payload is empty |
| `Netd.BackendErrorPropagated` | pkg/ai/netd.go:84-88 | on a miss, a backend error is returned with an empty text and nothing is stored |
| `Netd.ResponseWrittenThrough` | pkg/ai/netd.go:90-97 | on a miss with a backend success, one store of `(key, base64(response))` happens; the result is `(response, nil)` if it succeeds and `("", nil)` if it fails; no other key changes |
| `Netd.StoredValueDecodesToResponse` | pkg/ai/netd.go:90 | after a successful write-through the stored value decodes to exactly the response, and is empty exactly when the response is |
| `Netd.NonEmptyReplyIsCached` | pkg/ai/netd.go:61-98 | every non-empty returned text has no error and is what the cache holds, decodably and non-empty, under the key afterwards |
| `Netd.ErrorsPassedOnUnchanged` | pkg/ai/netd.go:69-88 | a returned error is the load error or the backend error, unchanged, with an empty text |
| `Netd.SecondCallHits` | pkg/ai/netd.go:68-97 | after a non-empty response is written through, the next call with the same key returns it without asking the backend, whatever the backend would say |
| `Netd.EmptyResponseAskedAgain` | pkg/ai/netd.go:74-90 | an empty response is stored as an empty payload, and the next call asks the backend again |
| `Netd.Cache.IsCacheDisabled` | pkg/ai/netd.go:68 | reports the store's disable flag |
| `Netd.Cache.Exists` | pkg/ai/netd.go:68 | true exactly when the key is held |
| `Netd.Cache.Load` | pkg/ai/netd.go:69 | answers as `LoadResult` and changes nothing |
| `Netd.Cache.Store` | pkg/ai/netd.go:90 | records the attempt; on success the key maps to the value and nothing else changes; on failure the entries are unchanged |
| `Netd.NetdAIClient.Configure` | pkg/ai/netd.go:26-42 | when a client was built, sets the language and the model from the configuration with no error; otherwise reports the creation error and changes nothing |
| `Netd.NetdAIClient.GetCompletion` | pkg/ai/netd.go:44-59 | sends the prompt once and returns the remote answer as `(text, nil)` or `("", err)` |
| `Netd.NetdAIClient.Parse` | pkg/ai/netd.go:61-98 | returns, sends to the backend, stores and leaves in the cache exactly what `ParseStep` gives for this client's key, body and cache state |
| `Netd.ParseTwice` | pkg/ai/netd.go:61-98 | two calls on an enabled, working cache without the key both return the backend's non-empty response, and the backend is asked once |

## Left out

- The OpenAI client library: the token, the base URL `https://netd.fun/v1` and building the client (pkg/ai/netd.go:27-34). Only whether a client came back is modelled (`clientCreated`).
- The HTTP request of `GetCompletion`: the chat request shape and the formatting of the prompt with `default_prompt`. The remote service is a function of (model, language, prompt), so it is deterministic within the model. The panic on a response with no choices (`Choices[0]`) is not modelled.
- `color.Red` logging (lines 77, 86, 93): console output only.
- The body of `util.GetCacheKey`: pkg/util is not part of this model, so the key function is a parameter.
- Context cancellation, and concurrent use of the cache by several callers.
- The concrete cache implementations (file, cloud buckets and others). `Cache` is one key/value store whose failures are given by its fields.
- Netd.Cache.Store: a failed store leaves the entries unchanged. This is a modelling choice, since the real media are not part of this model.
- The messages and input offsets carried by Go's errors: the base64 decoder's `CorruptInputError` is `None`. The partial output returned with it is discarded, as `Parse` discards it.
- The other fields of the embedded `OpenAIClient` (temperature, top-p and others) are not used by the code modelled here.
