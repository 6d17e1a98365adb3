# blacklist-check: the check service and its HTTP handler, in Dafny

This project models the core of `blacklist-check`, a Go service that answers
"is this person blacklisted?". A request gives a name, and may give a NIK
(the 16-digit Indonesian identity number), a birth place and a birth date.

- `BlacklistService.CheckBlacklist` is the cache-aside coordinator. It derives
  a cache key from the request and returns a cached result that decodes.
  Otherwise it resolves the request in tiers and writes the result back for
  24 hours:
  1. an exact NIK lookup (`exact_nik`);
  2. the first fuzzy candidate whose birth place and birth date both equal the
     request's (`fuzzy_full_match`);
  3. the first candidate whose birth date alone does (`fuzzy_date_match`);
  4. `no_match`.

  A store error is returned and nothing is cached. A cache read or write that
  fails is ignored.
- `Handler.CheckBlacklist` is the HTTP handler. It rejects an undecodable
  body, a name shorter than 3 bytes and a malformed NIK with 400, in that
  order. It maps omitted optional fields to zero values and calls the
  service. It then answers 500 on a service error, or with the result as JSON.

Files, one module each:

- `wrappers.dfy`: `Option` and `Result`.
- `dates.dfy`: calendar dates and the `"2006-01-02"` format.
- `store.dfy`: the two store calls as an abstract provider with a call log.
- `redis.dfy`: the cache as a map with a log of operations.
- `service.dfy`: keys, the cached payload, the tiers and the service class.
- `api.dfy`: validation, request mapping, the response writer and the handler.

Three behaviours of the code are easy to miss:

- An omitted NIK makes the key a name key. An omitted birth place goes into
  that key as `""`, and an omitted birth date as the zero date `0001-01-01`.
  `Service.NameKeyCollision` shows that, because `:` is not escaped, two
  different requests can share a name key. `Service.NikKeyCollision` shows
  that two requests with the same unregistered NIK share a key but resolve
  differently.
- An omitted birth date is sent to the store as the zero date and compared
  like any other date (`Api.OmittedBirthDateIsCompared`).
- The name check counts UTF-8 bytes (Go's `len`), not characters
  (`Api.TwoCharacterNameAccepted`).

## Model

| member | source | states |
|---|---|---|
| `Dates.Format` | internal/service/blacklist.go:59 | the date in the key is always 10 characters with `-` at positions 4 and 7, and never contains `:` |
| `Dates.FormatInjective` | internal/service/blacklist.go:56-59 | two dates with the same formatted text are the same date |
| `Dates.ZeroFormat` | internal/service/blacklist.go:59 | the zero date an omitted birth date becomes formats as `0001-01-01` |
| `Store.BlacklistStore.NikAnswer` | internal/store/blacklist.go:43-57 | GetByNIK fails exactly when the driver fails; otherwise it finds a record exactly when one has that NIK (no rows gives nil, not an error), and the record carries that NIK |
| `Store.BlacklistStore.constructor` | internal/store/blacklist.go:43-137 | a store whose NIK index maps each NIK to a record with that NIK, and whose every answer holds at most 5 candidates, satisfies NikIndexed and CandidatesBounded |
| `Store.BlacklistStore.FuzzyAnswer` | internal/store/blacklist.go:60-137 | GetByFuzzyMatch fails exactly when the driver fails; otherwise it returns at most 5 candidates (LIMIT 5) on a store built by the constructor, and nothing for a query with no candidates |
| `Store.BlacklistStore.GetByNIK` | internal/store/blacklist.go:43-57 | answers as NikAnswer and logs one NIK call |
| `Store.BlacklistStore.GetByFuzzyMatch` | internal/store/blacklist.go:60-138 | answers as FuzzyAnswer and logs one fuzzy call with its arguments |
| `Redis.Client.Lookup` | internal/service/blacklist.go:63 | GET gives the stored payload exactly when the read works and the key is present; a missing key gives redis.Nil |
| `Redis.Client.Get` | internal/service/blacklist.go:63 | one GET: answers as Lookup, logs one read, changes no entry |
| `Redis.Client.Set` | internal/service/blacklist.go:157 | one SET with expiry: the key holds the payload and TTL unless the write fails, in which case nothing changes and an error comes back |
| `Service.CacheKey` | internal/service/blacklist.go:52-60 | with a NIK the key is `blacklist:nik:` followed by the NIK; without one it is `blacklist:name:` followed by the name, it ends in the 10-character formatted birth date, and it is 12 characters (two `:` and the date) longer than prefix, name and place together |
| `Service.NikKeyIgnoresDescriptor` | internal/service/blacklist.go:53-54 | requests with the same non-empty NIK share a key, whatever their name, birth place and birth date |
| `Service.NikKeyInjective` | internal/service/blacklist.go:53-54 | a NIK key determines the NIK |
| `Service.KeyKindsDisjoint` | internal/service/blacklist.go:52-60 | a NIK key never equals a name key |
| `Service.NameKeyShape` | internal/service/blacklist.go:56-59 | a name key is the prefix followed by the name, `:`, the place, `:` and the formatted date |
| `Service.NameKeyInjective` | internal/service/blacklist.go:55-60 | when name and birth place contain no `:`, a name key determines the whole request |
| `Service.NameKeyCollision` | internal/service/blacklist.go:56-59 | names and places that contain `:` can collide, e.g. ("John:Jakarta", "") and ("John", "Jakarta:"), and the two requests classify differently against the same candidate |
| `Service.NikKeyCollision` | internal/service/blacklist.go:52-148 | two requests with the same NIK that GetByNIK does not find share a key, yet against one candidate born on the zero date one is blacklisted and the other is not |
| `Service.Encode` | internal/service/blacklist.go:152 | the payload is a JSON object that opens with the Blacklisted field and ends in `}` |
| `Service.RoundTrip` | internal/service/blacklist.go:66-152 | decoding the payload written for a result gives back that result, for every match type and every details text |
| `Service.Decode` | internal/service/blacklist.go:66 | the json.Unmarshal stand-in; it has no contract of its own, and its meaning is given by `Service.RoundTrip`, `Service.DecodedIsEncoded` and `Service.DecodeInvertsEncode`: it succeeds exactly on the payloads Encode writes, giving back their result |
| `Service.DecodedIsEncoded` | internal/service/blacklist.go:66 | a payload that decodes is exactly the encoding of the result it decodes to |
| `Service.DecodeInvertsEncode` | internal/service/blacklist.go:66-152 | a payload decodes to a result if and only if it is that result's encoding |
| `Service.Unquote` | internal/service/blacklist.go:66 | reading a quoted string consumes exactly its quoted form, escapes included |
| `Service.CacheHit` | internal/service/blacklist.go:63-66 | the hit test (GET without error, then a payload that unmarshals); it has no contract of its own, and its meaning is given by `Service.WrittenPayloadHits` and `Service.CheckOutcome` |
| `Service.WrittenPayloadHits` | internal/service/blacklist.go:63-72 | a payload the service wrote counts as a cache hit when read back, with the same result |
| `Service.CheckOutcome` | internal/service/blacklist.go:63-74 | on a GET whose payload decodes, the outcome is the decoded result, whatever the store answers; a failed GET or an undecodable payload is a miss and is resolved; so an error never comes from the cache |
| `Service.WriteKeepsConsistent` | internal/service/blacklist.go:152-157 | writing back a well-formed result keeps every decodable cached payload well-formed |
| `Service.FirstMatch` | internal/service/blacklist.go:104-118 | the scan's stopping point: the first candidate in list order that passes the tier's test, or none exists |
| `Service.FirstMatchIs` | internal/service/blacklist.go:122-135 | the first passing candidate is unique, so any candidate that is first in list order is the one the scan stops at |
| `Service.Classify` | internal/service/blacklist.go:102-148 | the fuzzy tiers give a well-formed result, never `exact_nik`; blacklisted exactly when some candidate's birth date matches; `fuzzy_full_match` exactly when some candidate matches on both place and date |
| `Service.FullTierPicksFirst` | internal/service/blacklist.go:104-118 | if candidate i is the first with equal birth place and birth date, the result is `fuzzy_full_match` with candidate i's reason |
| `Service.DateTierPicksFirst` | internal/service/blacklist.go:120-136 | if no candidate matches fully and candidate i is the first with an equal birth date, the result is `fuzzy_date_match` with candidate i's reason |
| `Service.NoTierMatches` | internal/service/blacklist.go:139-148 | with no candidate of equal birth date, and so also with an empty list, the result is `{false, "", no_match}` |
| `Service.DateFilteredCandidatesAlwaysMatch` | internal/service/blacklist.go:121-136 | when every candidate has the request's birth date (the store's query filters on it), any non-empty candidate list gives a blacklisted result |
| `Service.FuzzyTiers` | internal/service/blacklist.go:102-148 | the two scans with break, then the no-match fallback, compute exactly the Classify result |
| `Service.FuzzyQueryFor` | internal/service/blacklist.go:97 | the fuzzy query carries the request's name, and its birth place and birth date are always given, never nil |
| `Service.Resolve` | internal/service/blacklist.go:74-149 | results are well-formed; `exact_nik` comes out exactly when a NIK was given and GetByNIK found a record; the outcome is an error exactly when the NIK call fails, or when the fuzzy tiers are reached and the fuzzy call fails; a NIK error comes only from a request with a NIK and carries GetByNIK's error unchanged, a fuzzy-match error only from a request that reached the fuzzy tiers and carries GetByFuzzyMatch's error unchanged; when the fuzzy tiers are reached and the fuzzy call succeeds, the result is the fuzzy classification of its candidates |
| `Service.ExactTierWins` | internal/service/blacklist.go:78-96 | a record found by NIK gives `{true, reason, exact_nik}` whatever the fuzzy search would return |
| `Service.ResolutionCalls` | internal/service/blacklist.go:78-100 | resolution makes one store call per step it reaches: GetByNIK exactly when a NIK is given, and then first; GetByFuzzyMatch (with non-nil birth place and date) exactly when no NIK is given or the NIK found nothing; no other call |
| `Service.BlacklistService.Resolution` | internal/service/blacklist.go:74-149 | computes Resolve from the store's answers and makes exactly the store calls ResolutionCalls lists |
| `Service.BlacklistService.constructor` | internal/service/blacklist.go:24-32 | NewBlacklistService: the service holds the cache client and the store it is given |
| `Service.BlacklistService.ResolveAndRemember` | internal/service/blacklist.go:74-157 | on a miss: computes Resolve from the store's answers with the calls ResolutionCalls lists, then writes a successful result back under the request's key with TTL 24h, and writes nothing after a store error |
| `Service.BlacklistService.CheckBlacklist` | internal/service/blacklist.go:50-165 | states the outcome, the store calls and the cache afterwards. On a hit: no store call and no write. On a miss that succeeds: exactly one SET of the encoded result under the same key with TTL 24h, and the result is the same whether the write fails or not. On a store error: no write. Every check keeps every cached payload well-formed |
| `Service.CheckTwice` | internal/service/blacklist.go:63-72 | when the cache works, a successful check repeated immediately returns the same result and makes no store call |
| `Api.LeadingDigits` | internal/api/handlers.go:17 | the length of the run of ASCII digits that starts the text |
| `Api.IsNik` | internal/api/handlers.go:17 | a NIK matches `^\d{16}$` exactly when it is 16 characters long and every one is an ASCII digit |
| `Api.Utf8Length` | internal/api/handlers.go:71 | the byte length of a name lies between its character count and four times that, and is 0 only for the empty name |
| `Api.AsciiLength` | internal/api/handlers.go:71 | for an ASCII name, bytes equal characters |
| `Api.TwoCharacterNameAccepted` | internal/api/handlers.go:71-75 | the two-character name "Jé" (3 bytes) passes the length check |
| `Api.RejectionOf` | internal/api/handlers.go:64-82 | the checks run in this order: an undecodable body, then a name under 3 bytes, then a given NIK that is not 16 ASCII digits; the first failure decides; a request is accepted exactly when all three pass |
| `Api.EmptyNikRejected` | internal/api/handlers.go:78-82 | a present empty NIK is rejected; an omitted NIK never is |
| `Api.ServiceRequestOf` | internal/api/handlers.go:85-96 | the name is always copied; present optional fields are copied unchanged; an omitted NIK or place becomes `""` and an omitted date the zero date |
| `Api.AcceptedNikIsUsed` | internal/api/handlers.go:78-90 | an accepted request with a NIK reaches the service with a non-empty NIK, so its cache key is a NIK key over 16 digits |
| `Api.OmittedBirthDateIsCompared` | internal/api/handlers.go:94-96 | a request without a birth date still matches a candidate born on the zero date, which gives `fuzzy_date_match` |
| `Api.ResponseWriter.SetHeader` | internal/api/handlers.go:110 | `w.Header().Set`: the header field takes the value, the others are kept |
| `Api.ResponseWriter.Error` | internal/api/handlers.go:66 | http.Error: plain-text content type and nosniff set, the status written unless one already was, the message and a newline appended to the body |
| `Api.ResponseWriter.Encode` | internal/api/handlers.go:111-115 | json.Encoder.Encode on a writer: status 200 unless one was already written, the response appended to the body as JSON |
| `Api.Handler.constructor` | internal/api/handlers.go:38-44 | NewHandler: the handler holds the service it is given |
| `Api.Handler.Respond` | internal/api/handlers.go:98-115 | a validated request is passed to the service; a service error gets 500 with the generic message; success gets 200, JSON content type and the result's fields; the store calls are those of the service check; the cache gets one GET and, on a miss that succeeds, one SET of the encoded result for 24 hours, which changes the entries unless the write fails |
| `Api.Handler.CheckBlacklist` | internal/api/handlers.go:62-116 | a rejected request gets 400 with its message and leaves the service untouched; a service error gets 500 with no result body; success gets 200, JSON content type, and a body whose fields equal the service result's; the store calls and the cache's operations and entries are those of the service check |

## Left out

- SQL and trigram similarity (internal/store/blacklist.go): the store is an abstract provider holding a fixed answer for each query. Scores are not modelled, so the candidate order is taken as given.
- Store.BlacklistStore.FuzzyAnswer: does not state that the candidates have similarity above 0.3 and come in descending order of similarity, because similarity scores are not modelled. The candidate list's order is what the tiers rely on.
- The SQL's filter on birth date and birth place is not part of the provider's answer. `Service.DateFilteredCandidatesAlwaysMatch` states what the filter implies.
- Redis transport and TTL expiry: the cache is a map that stores each payload with its TTL. There is no clock and no eviction.
- encoding/json: the cached payload uses the shape `{"Blacklisted":…,"Details":"…","MatchType":"…"}`, but it escapes only `"` and `\`. The decoder accepts exactly what the encoder writes. Go's escaping of control and HTML characters is not modelled. Neither is its lenient decoding: whitespace, field order, case-insensitive names, missing or unknown fields.
- The json.Marshal error branch (internal/service/blacklist.go:153-155) is not modelled: Encode is total. Marshalling a CheckResult cannot fail in Go either.
- The request body decoder: the handler takes an already decoded body, or None for one that does not decode. JSON parsing, RFC 3339 parsing and the replacement of invalid UTF-8 are not modelled.
- Go's time.Time is a calendar date here, so time of day and zones are not modelled. In Go, `Equal` compares instants and `Format` prints the date in the value's own zone, so the two can disagree. In this model they cannot.
- Logging (all `s.log`/`h.log` calls) and the metrics counter (internal/api/handlers.go:107) are not modelled.
- HealthCheck, cmd/server/main.go, pkg/config/config.go and pkg/log/logger.go are not part of this model.
- Context cancellation and concurrency are not modelled. That includes concurrent misses on the same key (the cache stampede).
- Api.Handler.CheckBlacklist: requires a response writer that nothing has been written to yet, as net/http gives each request.
- Service.BlacklistService.constructor: keeps only the cache client and the store. The `db` handle is never used by the check, and the logger is not modelled.
- Api.ResponseWriter models only what http.Error and json.Encoder.Encode do to the headers, the status and the body. http.Error deleting Content-Length is not modelled.
