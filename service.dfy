/**
 * BlacklistService.CheckBlacklist: the cache-aside coordinator and the
 * tiered match resolution behind it.
 *
 * The request is turned into a cache key; a cached result that decodes is
 * returned at once. Otherwise the result is resolved in tiers: an exact NIK
 * lookup, then the first fuzzy candidate whose birth place and birth date
 * both equal the request's, then the first whose birth date alone does,
 * and finally "no match". A resolved result is written back for 24 hours;
 * a store error is returned and nothing is cached.
 */
module Service {
  import opened Wrappers
  import opened Dates
  import opened Store
  import Redis

  // ---------------------------------------------------------------------
  // Requests and results

  /** An omitted NIK or birth place is "", an omitted birth date is the zero date. */
  datatype CheckRequest = CheckRequest(name: string, nik: string, birthPlace: string, birthDate: Date)

  datatype CheckResult = CheckResult(blacklisted: bool, details: string, matchType: string)

  const EXACT_NIK := "exact_nik"
  const FUZZY_FULL_MATCH := "fuzzy_full_match"
  const FUZZY_DATE_MATCH := "fuzzy_date_match"
  const NO_MATCH := "no_match"

  const NO_MATCH_RESULT := CheckResult(false, "", NO_MATCH)

  /** 24 * time.Hour. */
  const CACHE_TTL_SECONDS: nat := 24 * 60 * 60

  /** A result the service can produce: a known match type, blacklisted exactly when it is not no_match. */
  predicate WellFormed(r: CheckResult) {
    && (r.matchType == EXACT_NIK || r.matchType == FUZZY_FULL_MATCH
        || r.matchType == FUZZY_DATE_MATCH || r.matchType == NO_MATCH)
    && (r.blacklisted <==> r.matchType != NO_MATCH)
    && (!r.blacklisted ==> r.details == "")
  }

  /**
   * A store error, wrapped with the step that failed ("error checking NIK"
   * or "error searching by fuzzy match"); the cause is kept unchanged.
   */
  datatype ServiceError = NikLookupError(cause: DbError) | FuzzyMatchError(cause: DbError)

  // ---------------------------------------------------------------------
  // Cache key

  const NIK_KEY_PREFIX := "blacklist:nik:"
  const NAME_KEY_PREFIX := "blacklist:name:"

  /**
   * A NIK key carries the NIK and nothing else; a name key carries the
   * name, the birth place and the formatted birth date, joined by ':'.
   */
  function CacheKey(req: CheckRequest): (key: string)
    ensures req.nik != "" ==>
      && |key| > |NIK_KEY_PREFIX|
      && key[..|NIK_KEY_PREFIX|] == NIK_KEY_PREFIX && key[|NIK_KEY_PREFIX|..] == req.nik
    ensures req.nik == "" ==>
      && |key| == |NAME_KEY_PREFIX| + |req.name| + |req.birthPlace| + 12
      && key[..|NAME_KEY_PREFIX|] == NAME_KEY_PREFIX
      && key[|NAME_KEY_PREFIX|..|NAME_KEY_PREFIX| + |req.name|] == req.name
      && key[|key| - 10..] == Format(req.birthDate)
  {
    if req.nik != "" then NIK_KEY_PREFIX + req.nik
    else NAME_KEY_PREFIX + req.name + ":" + req.birthPlace + ":" + Format(req.birthDate)
  }

  /** Two requests with the same non-empty NIK share a key, whatever their other fields. */
  lemma NikKeyIgnoresDescriptor(a: CheckRequest, b: CheckRequest)
    requires a.nik != "" && a.nik == b.nik
    ensures CacheKey(a) == CacheKey(b)
  {
  }

  /** A NIK key determines the NIK. */
  lemma NikKeyInjective(a: CheckRequest, b: CheckRequest)
    requires a.nik != "" && b.nik != ""
    requires CacheKey(a) == CacheKey(b)
    ensures a.nik == b.nik
  {
  }

  /** A NIK key never equals a name key: they differ in their twelfth character. */
  lemma KeyKindsDisjoint(a: CheckRequest, b: CheckRequest)
    requires a.nik != "" && b.nik == ""
    ensures CacheKey(a) != CacheKey(b)
  {
    assert CacheKey(a)[11] == 'i';
    assert CacheKey(b)[11] == 'a';
  }

  lemma SplitAtFirstColon(a: string, b: string, c: string, d: string)
    requires ':' !in a && ':' !in c
    requires a + ":" + b == c + ":" + d
    ensures a == c && b == d
  {
    var s := a + ":" + b;
    assert forall i :: 0 <= i < |a| ==> s[i] == a[i] != ':';
    assert forall i :: 0 <= i < |c| ==> s[i] == c[i] != ':';
    assert s[|a|] == ':' && s[|c|] == ':';
    assert |a| == |c|;
    assert s[..|a|] == a && s[..|c|] == c;
    assert s[|a| + 1..] == b && (c + ":" + d)[|c| + 1..] == d;
  }

  /** A name key regrouped from the right, as NameKeyInjective splits it. */
  lemma NameKeyShape(req: CheckRequest)
    requires req.nik == ""
    ensures CacheKey(req) == NAME_KEY_PREFIX + (req.name + ":" + (req.birthPlace + ":" + Format(req.birthDate)))
  {
  }

  /**
   * When Name and BirthPlace contain no ':', a name key determines the
   * whole request: the formatted date never contains ':' either.
   */
  lemma NameKeyInjective(a: CheckRequest, b: CheckRequest)
    requires a.nik == "" && b.nik == ""
    requires ':' !in a.name && ':' !in a.birthPlace
    requires ':' !in b.name && ':' !in b.birthPlace
    requires CacheKey(a) == CacheKey(b)
    ensures a == b
  {
    var fa, fb := Format(a.birthDate), Format(b.birthDate);
    assert ':' !in fa && ':' !in fb;
    var ta := a.name + ":" + (a.birthPlace + ":" + fa);
    var tb := b.name + ":" + (b.birthPlace + ":" + fb);
    assert ta == tb by {
      NameKeyShape(a);
      NameKeyShape(b);
      assert CacheKey(a)[|NAME_KEY_PREFIX|..] == ta;
      assert CacheKey(b)[|NAME_KEY_PREFIX|..] == tb;
    }
    SplitAtFirstColon(a.name, a.birthPlace + ":" + fa, b.name, b.birthPlace + ":" + fb);
    SplitAtFirstColon(a.birthPlace, fa, b.birthPlace, fb);
    FormatInjective(a.birthDate, b.birthDate);
  }

  // ---------------------------------------------------------------------
  // Cached payload: a stand-in for encoding/json on CheckResult

  const JSON_OPEN := "{\"Blacklisted\":"
  const JSON_DETAILS := ",\"Details\":\""
  const JSON_MATCH_TYPE := ",\"MatchType\":\""
  const JSON_CLOSE := "}"

  /** The characters of s with '"' and '\' escaped, followed by the closing '"'. */
  function Quote(s: string): string
    decreases |s|
  {
    if s == [] then "\""
    else (if s[0] == '"' || s[0] == '\\' then ['\\', s[0]] else [s[0]]) + Quote(s[1..])
  }

  /**
   * Reads up to the first unescaped '"': the unescaped string and what
   * follows the quote. Only '"' and '\' may follow a backslash.
   */
  function Unquote(s: string): (r: Option<(string, string)>)
    ensures r.Some? ==> s == Quote(r.value.0) + r.value.1
    decreases |s|
  {
    if s == [] then None
    else if s[0] == '"' then Some(([], s[1..]))
    else if s[0] == '\\' then
      if |s| < 2 || (s[1] != '"' && s[1] != '\\') then None
      else match Unquote(s[2..])
        case Some((u, rest)) =>
          assert ([s[1]] + u)[1..] == u;
          Some(([s[1]] + u, rest))
        case None => None
    else match Unquote(s[1..])
      case Some((u, rest)) =>
        assert ([s[0]] + u)[1..] == u;
        Some(([s[0]] + u, rest))
      case None => None
  }

  function StripPrefix(prefix: string, s: string): (r: Option<string>)
    ensures r.Some? ==> s == prefix + r.value
  {
    if |prefix| <= |s| && s[..|prefix|] == prefix then Some(s[|prefix|..]) else None
  }

  function ReadBool(s: string): (r: Option<(bool, string)>)
    ensures r.Some? ==> s == (if r.value.0 then "true" else "false") + r.value.1
  {
    match StripPrefix("true", s)
    case Some(rest) => Some((true, rest))
    case None =>
      match StripPrefix("false", s)
      case Some(rest) => Some((false, rest))
      case None => None
  }

  function ReadString(prefix: string, s: string): (r: Option<(string, string)>)
    ensures r.Some? ==> s == prefix + (Quote(r.value.0) + r.value.1)
  {
    match StripPrefix(prefix, s)
    case Some(rest) => Unquote(rest)
    case None => None
  }

  /** The payload is a JSON object whose first field is Blacklisted and which ends in '}'. */
  function Encode(r: CheckResult): (payload: string)
    ensures |payload| > |JSON_OPEN| && payload[..|JSON_OPEN|] == JSON_OPEN
    ensures payload[|payload| - 1] == '}'
  {
    JSON_OPEN + ((if r.blacklisted then "true" else "false")
      + (JSON_DETAILS + (Quote(r.details) + (JSON_MATCH_TYPE + (Quote(r.matchType) + JSON_CLOSE)))))
  }

  /** Inverts Encode; a payload of any other shape fails to decode. */
  function Decode(payload: string): Option<CheckResult> {
    match StripPrefix(JSON_OPEN, payload)
    case None => None
    case Some(s1) =>
      match ReadBool(s1)
      case None => None
      case Some((blacklisted, s2)) =>
        match ReadString(JSON_DETAILS, s2)
        case None => None
        case Some((details, s3)) =>
          match ReadString(JSON_MATCH_TYPE, s3)
          case None => None
          case Some((matchType, s4)) =>
            if s4 == JSON_CLOSE then Some(CheckResult(blacklisted, details, matchType)) else None
  }

  lemma StripPrefixConcat(prefix: string, s: string)
    ensures StripPrefix(prefix, prefix + s) == Some(s)
  {
  }

  lemma {:induction false} UnquoteQuote(s: string, t: string)
    ensures Unquote(Quote(s) + t) == Some((s, t))
    decreases |s|
  {
    if s == [] {
      assert (Quote(s) + t)[1..] == t;
    } else {
      var q := Quote(s) + t;
      if s[0] == '"' || s[0] == '\\' {
        assert q == ['\\', s[0]] + (Quote(s[1..]) + t);
        assert q[2..] == Quote(s[1..]) + t;
        UnquoteQuote(s[1..], t);
      } else {
        assert q == [s[0]] + (Quote(s[1..]) + t);
        assert q[1..] == Quote(s[1..]) + t;
        UnquoteQuote(s[1..], t);
      }
      assert [s[0]] + s[1..] == s;
    }
  }

  lemma ReadBoolShow(b: bool, s: string)
    ensures ReadBool((if b then "true" else "false") + s) == Some((b, s))
  {
    if b {
      StripPrefixConcat("true", s);
    } else {
      var t := "false" + s;
      assert t[0] == 'f';
      StripPrefixConcat("false", s);
    }
  }

  lemma ReadStringShow(prefix: string, u: string, t: string)
    ensures ReadString(prefix, prefix + (Quote(u) + t)) == Some((u, t))
  {
    StripPrefixConcat(prefix, Quote(u) + t);
    UnquoteQuote(u, t);
  }

  /** Every result survives the trip through the cache payload. */
  lemma RoundTrip(r: CheckResult)
    ensures Decode(Encode(r)) == Some(r)
  {
    var tail := Quote(r.matchType) + JSON_CLOSE;
    var s3 := JSON_MATCH_TYPE + tail;
    var s2 := JSON_DETAILS + (Quote(r.details) + s3);
    var s1 := (if r.blacklisted then "true" else "false") + s2;
    StripPrefixConcat(JSON_OPEN, s1);
    ReadBoolShow(r.blacklisted, s2);
    ReadStringShow(JSON_DETAILS, r.details, s3);
    ReadStringShow(JSON_MATCH_TYPE, r.matchType, JSON_CLOSE);
  }
  /** A payload that decodes is the encoding of what it decodes to. */
  lemma DecodedIsEncoded(payload: string)
    requires Decode(payload).Some?
    ensures Encode(Decode(payload).value) == payload
  {
  }

  /** Decode accepts exactly the payloads Encode produces. */
  lemma DecodeInvertsEncode(payload: string, r: CheckResult)
    ensures Decode(payload) == Some(r) <==> payload == Encode(r)
  {
    RoundTrip(r);
    var d := Decode(payload);
    if d.Some? {
      DecodedIsEncoded(payload);
    }
  }


  // ---------------------------------------------------------------------
  // Tiered match resolution

  datatype FuzzyTier = FullTier | DateTier

  /** The two field-equality tests of the fuzzy tiers. */
  predicate Matches(tier: FuzzyTier, req: CheckRequest, rec: BlacklistRecord) {
    match tier
    case FullTier => rec.birthPlace == req.birthPlace && rec.birthDate == req.birthDate
    case DateTier => rec.birthDate == req.birthDate
  }

  predicate NoneMatches(tier: FuzzyTier, req: CheckRequest, records: seq<BlacklistRecord>) {
    forall j :: 0 <= j < |records| ==> !Matches(tier, req, records[j])
  }

  predicate IsFirstMatch(tier: FuzzyTier, req: CheckRequest, records: seq<BlacklistRecord>, i: int) {
    && 0 <= i < |records|
    && Matches(tier, req, records[i])
    && forall j :: 0 <= j < i ==> !Matches(tier, req, records[j])
  }

  /** The position of the first candidate, in ranking order, that passes the tier's test. */
  function FirstMatch(tier: FuzzyTier, req: CheckRequest, records: seq<BlacklistRecord>): (r: Option<nat>)
    ensures r.Some? ==> IsFirstMatch(tier, req, records, r.value)
    ensures r.None? ==> NoneMatches(tier, req, records)
  {
    if records == [] then None
    else if Matches(tier, req, records[0]) then Some(0)
    else match FirstMatch(tier, req, records[1..])
      case Some(i) => Some(i + 1)
      case None => None
  }

  lemma FirstMatchIs(tier: FuzzyTier, req: CheckRequest, records: seq<BlacklistRecord>, i: int)
    requires IsFirstMatch(tier, req, records, i)
    ensures FirstMatch(tier, req, records) == Some(i)
  {
  }

  /** The fuzzy tiers over a candidate list. */
  function Classify(req: CheckRequest, records: seq<BlacklistRecord>): (r: CheckResult)
    ensures WellFormed(r) && r.matchType != EXACT_NIK
    ensures r.blacklisted <==> !NoneMatches(DateTier, req, records)
    ensures r.matchType == FUZZY_FULL_MATCH <==> !NoneMatches(FullTier, req, records)
  {
    match FirstMatch(FullTier, req, records)
    case Some(i) =>
      assert Matches(DateTier, req, records[i]);
      CheckResult(true, records[i].reason, FUZZY_FULL_MATCH)
    case None =>
      match FirstMatch(DateTier, req, records)
      case Some(i) => CheckResult(true, records[i].reason, FUZZY_DATE_MATCH)
      case None => NO_MATCH_RESULT
  }

  /** Fuzzy-full tier: the first candidate with equal birth place and birth date decides. */
  lemma FullTierPicksFirst(req: CheckRequest, records: seq<BlacklistRecord>, i: int)
    requires IsFirstMatch(FullTier, req, records, i)
    ensures Classify(req, records) == CheckResult(true, records[i].reason, FUZZY_FULL_MATCH)
  {
  }

  /** Fuzzy-date tier: only when no candidate matches fully, the first with an equal birth date decides. */
  lemma DateTierPicksFirst(req: CheckRequest, records: seq<BlacklistRecord>, i: int)
    requires NoneMatches(FullTier, req, records)
    requires IsFirstMatch(DateTier, req, records, i)
    ensures Classify(req, records) == CheckResult(true, records[i].reason, FUZZY_DATE_MATCH)
  {
  }

  /** No candidate with an equal birth date (for one, an empty list) gives no_match. */
  lemma NoTierMatches(req: CheckRequest, records: seq<BlacklistRecord>)
    requires NoneMatches(DateTier, req, records)
    ensures Classify(req, records) == NO_MATCH_RESULT
  {
  }

  /**
   * The store's fuzzy query filters on birth_date = the request's date; for
   * such a candidate list, any candidate at all makes the request blacklisted.
   */
  lemma DateFilteredCandidatesAlwaysMatch(req: CheckRequest, records: seq<BlacklistRecord>)
    requires |records| > 0
    requires forall j :: 0 <= j < |records| ==> records[j].birthDate == req.birthDate
    ensures Classify(req, records).blacklisted
  {
  }

  /** The two scans of the fuzzy candidates and the no-match fallback. */
  method FuzzyTiers(req: CheckRequest, candidates: seq<BlacklistRecord>) returns (result: CheckResult)
    ensures result == Classify(req, candidates)
  {
    result := CheckResult(false, "", "");

    if |candidates| > 0 {
      var i := 0;
      while i < |candidates|
        invariant 0 <= i <= |candidates|
        invariant result == CheckResult(false, "", "")
        invariant forall j :: 0 <= j < i ==> !Matches(FullTier, req, candidates[j])
      {
        if Matches(FullTier, req, candidates[i]) {
          FullTierPicksFirst(req, candidates, i);
          result := CheckResult(true, candidates[i].reason, FUZZY_FULL_MATCH);
          break;
        }
        i := i + 1;
      }

      if !result.blacklisted {
        var k := 0;
        while k < |candidates|
          invariant 0 <= k <= |candidates|
          invariant result == CheckResult(false, "", "")
          invariant forall j :: 0 <= j < k ==> !Matches(DateTier, req, candidates[j])
        {
          if Matches(DateTier, req, candidates[k]) {
            DateTierPicksFirst(req, candidates, k);
            result := CheckResult(true, candidates[k].reason, FUZZY_DATE_MATCH);
            break;
          }
          k := k + 1;
        }
      }
    }

    if !result.blacklisted {
      NoTierMatches(req, candidates);
      result := NO_MATCH_RESULT;
    }
  }

  /** The query the service sends: birth place and birth date are always passed, never nil. */
  function FuzzyQueryFor(req: CheckRequest): (q: FuzzyQuery)
    ensures q.name == req.name
    ensures q.birthPlace == Some(req.birthPlace) && q.birthDate == Some(req.birthDate)
  {
    FuzzyQuery(req.name, Some(req.birthPlace), Some(req.birthDate))
  }

  predicate ExactHit(req: CheckRequest, nik: Result<Option<BlacklistRecord>, DbError>) {
    req.nik != "" && nik.Success? && nik.value.Some?
  }

  /** The fuzzy tiers are reached when no NIK was given or the NIK lookup found nothing. */
  predicate ReachesFuzzy(req: CheckRequest, nik: Result<Option<BlacklistRecord>, DbError>) {
    req.nik == "" || nik == Success(None)
  }

  /**
   * Resolution from the answers the store gives: nik is what GetByNIK
   * answers for req.nik, fuzzy what GetByFuzzyMatch answers for
   * FuzzyQueryFor(req); each is consulted only when the code calls it.
   */
  function Resolve(
    req: CheckRequest,
    nik: Result<Option<BlacklistRecord>, DbError>,
    fuzzy: Result<seq<BlacklistRecord>, DbError>): (r: Result<CheckResult, ServiceError>)
    ensures r.Success? ==> WellFormed(r.value)
    ensures (r.Success? && r.value.matchType == EXACT_NIK) <==> ExactHit(req, nik)
    ensures r.Failure? <==> (req.nik != "" && nik.Failure?) || (ReachesFuzzy(req, nik) && fuzzy.Failure?)
    ensures r.Failure? && r.error.NikLookupError? ==> req.nik != "" && nik == Failure(r.error.cause)
    ensures r.Failure? && r.error.FuzzyMatchError? ==> ReachesFuzzy(req, nik) && fuzzy == Failure(r.error.cause)
    ensures ReachesFuzzy(req, nik) && fuzzy.Success? ==> r == Success(Classify(req, fuzzy.value))
  {
    if req.nik != "" && nik.Failure? then Failure(NikLookupError(nik.error))
    else if ExactHit(req, nik) then Success(CheckResult(true, nik.value.value.reason, EXACT_NIK))
    else if fuzzy.Failure? then Failure(FuzzyMatchError(fuzzy.error))
    else Success(Classify(req, fuzzy.value))
  }

  /** Exact tier: a record found by NIK decides, whatever the fuzzy search would return. */
  lemma ExactTierWins(
    req: CheckRequest, rec: BlacklistRecord,
    fuzzy1: Result<seq<BlacklistRecord>, DbError>, fuzzy2: Result<seq<BlacklistRecord>, DbError>)
    requires req.nik != ""
    ensures Resolve(req, Success(Some(rec)), fuzzy1) == Resolve(req, Success(Some(rec)), fuzzy2)
      == Success(CheckResult(true, rec.reason, EXACT_NIK))
  {
  }

  /** The store calls resolution makes, given GetByNIK's answer. */
  function ResolutionCalls(req: CheckRequest, nik: Result<Option<BlacklistRecord>, DbError>): (calls: seq<StoreCall>)
    ensures |calls| == (if req.nik != "" then 1 else 0) + (if ReachesFuzzy(req, nik) then 1 else 0)
    ensures 1 <= |calls|
    ensures req.nik != "" ==> calls[0] == GetByNikCall(req.nik)
    ensures GetByNikCall(req.nik) in calls <==> req.nik != ""
    ensures GetByFuzzyMatchCall(FuzzyQueryFor(req)) in calls <==> ReachesFuzzy(req, nik)
    ensures forall c :: c in calls ==> c == GetByNikCall(req.nik) || c == GetByFuzzyMatchCall(FuzzyQueryFor(req))
  {
    var lookup := if req.nik != "" then [GetByNikCall(req.nik)] else [];
    if ReachesFuzzy(req, nik) then lookup + [GetByFuzzyMatchCall(FuzzyQueryFor(req))] else lookup
  }

  // ---------------------------------------------------------------------
  // Cache-aside

  /** A GET counts as a hit only when it returned a payload that decodes. */
  function CacheHit(lookup: Result<string, Redis.GetError>): Option<CheckResult> {
    if lookup.Success? then Decode(lookup.value) else None
  }

  /** A payload the service wrote is a hit when read back. */
  lemma WrittenPayloadHits(r: CheckResult)
    ensures CacheHit(Success(Encode(r))) == Some(r)
  {
    RoundTrip(r);
  }

  /** The outcome of one check, from the GET answer and the store's answers. */
  function CheckOutcome(
    req: CheckRequest,
    lookup: Result<string, Redis.GetError>,
    nik: Result<Option<BlacklistRecord>, DbError>,
    fuzzy: Result<seq<BlacklistRecord>, DbError>): (o: Result<CheckResult, ServiceError>)
    ensures lookup.Success? && Decode(lookup.value).Some? ==> o == Success(Decode(lookup.value).value)
    ensures lookup.Failure? || Decode(lookup.value).None? ==> o == Resolve(req, nik, fuzzy)
    ensures o.Failure? ==> CacheHit(lookup).None?
  {
    match CacheHit(lookup)
    case Some(cached) => Success(cached)
    case None => Resolve(req, nik, fuzzy)
  }

  /** Every cached payload that decodes holds a result the service could have produced. */
  ghost predicate CacheConsistent(entries: map<string, Redis.Entry>) {
    forall k :: k in entries && Decode(entries[k].payload).Some? ==> WellFormed(Decode(entries[k].payload).value)
  }

  /** Writing back a result the service produced keeps the cache consistent. */
  lemma WriteKeepsConsistent(entries: map<string, Redis.Entry>, key: string, r: CheckResult)
    requires CacheConsistent(entries) && WellFormed(r)
    ensures CacheConsistent(entries[key := Redis.Entry(Encode(r), CACHE_TTL_SECONDS)])
  {
    RoundTrip(r);
  }

  class BlacklistService {
    const cache: Redis.Client
    const store: BlacklistStore

    constructor (cache: Redis.Client, store: BlacklistStore)
      ensures this.cache == cache && this.store == store
    {
      this.cache := cache;
      this.store := store;
    }

    function CachedAnswer(req: CheckRequest): Option<CheckResult>
      reads cache`entries, cache`readFails
    {
      CacheHit(cache.Lookup(CacheKey(req)))
    }

    function Outcome(req: CheckRequest): Result<CheckResult, ServiceError>
      reads cache`entries, cache`readFails, store`byNik, store`nikFault, store`candidates, store`fuzzyFault
    {
      CheckOutcome(req, cache.Lookup(CacheKey(req)), store.NikAnswer(req.nik), store.FuzzyAnswer(FuzzyQueryFor(req)))
    }

    function StoreCallsFor(req: CheckRequest): seq<StoreCall>
      reads cache`entries, cache`readFails, store`byNik, store`nikFault
    {
      if CachedAnswer(req).Some? then [] else ResolutionCalls(req, store.NikAnswer(req.nik))
    }

    /**
     * A check on a cache miss: GetByNIK when a NIK was given, then, unless
     * that found a record, GetByFuzzyMatch and the fuzzy tiers.
     */
    method Resolution(req: CheckRequest) returns (res: Result<CheckResult, ServiceError>)
      modifies store`calls
      ensures res == old(Resolve(req, store.NikAnswer(req.nik), store.FuzzyAnswer(FuzzyQueryFor(req))))
      ensures store.calls == old(store.calls) + old(ResolutionCalls(req, store.NikAnswer(req.nik)))
    {
      var result := CheckResult(false, "", "");

      if req.nik != "" {
        var found := store.GetByNIK(req.nik);
        if found.Failure? {
          return Failure(NikLookupError(found.error));
        }
        if found.value.Some? {
          result := CheckResult(true, found.value.value.reason, EXACT_NIK);
        }
      }

      if !result.blacklisted {
        var records := store.GetByFuzzyMatch(FuzzyQueryFor(req));
        if records.Failure? {
          return Failure(FuzzyMatchError(records.error));
        }
        result := FuzzyTiers(req, records.value);
      }
      res := Success(result);
    }

    /** A miss: resolve against the store, then write a successful result back with the TTL. */
    method ResolveAndRemember(req: CheckRequest) returns (res: Result<CheckResult, ServiceError>)
      modifies cache`entries, cache`ops, store`calls
      ensures res == old(Resolve(req, store.NikAnswer(req.nik), store.FuzzyAnswer(FuzzyQueryFor(req))))
      ensures store.calls == old(store.calls) + old(ResolutionCalls(req, store.NikAnswer(req.nik)))
      ensures cache.ops == old(cache.ops)
        + (if res.Success? then [Redis.SetOp(CacheKey(req), Encode(res.value), CACHE_TTL_SECONDS)] else [])
      ensures cache.entries ==
        if res.Success? && !cache.writeFails
        then old(cache.entries)[CacheKey(req) := Redis.Entry(Encode(res.value), CACHE_TTL_SECONDS)]
        else old(cache.entries)
    {
      res := Resolution(req);
      if res.Success? {
        var writeErr := cache.Set(CacheKey(req), Encode(res.value), CACHE_TTL_SECONDS);
      }
    }

    method CheckBlacklist(req: CheckRequest) returns (res: Result<CheckResult, ServiceError>)
      modifies cache`entries, cache`ops, store`calls
      ensures res == old(Outcome(req))
      ensures store.calls == old(store.calls) + old(StoreCallsFor(req))
      ensures cache.ops == old(cache.ops) + [Redis.GetOp(CacheKey(req))]
        + (if old(CachedAnswer(req)).None? && res.Success?
           then [Redis.SetOp(CacheKey(req), Encode(res.value), CACHE_TTL_SECONDS)] else [])
      ensures cache.entries ==
        if old(CachedAnswer(req)).None? && res.Success? && !cache.writeFails
        then old(cache.entries)[CacheKey(req) := Redis.Entry(Encode(res.value), CACHE_TTL_SECONDS)]
        else old(cache.entries)
      ensures CacheConsistent(old(cache.entries)) ==>
        CacheConsistent(cache.entries) && (res.Success? ==> WellFormed(res.value))
    {
      var cached := cache.Get(CacheKey(req));
      if cached.Success? {
        var decoded := Decode(cached.value);
        if decoded.Some? {
          assert cache.entries == old(cache.entries);
          return Success(decoded.value);
        }
      }
      res := ResolveAndRemember(req);
      if res.Success? && CacheConsistent(old(cache.entries)) {
        WriteKeepsConsistent(old(cache.entries), CacheKey(req), res.value);
      }
    }
  }

  /**
   * The same request twice in succession, with a cache that neither fails
   * to read nor to write: a successful first check is repeated exactly by
   * the second, which makes no store call at all.
   */
  method CheckTwice(service: BlacklistService, req: CheckRequest)
    returns (first: Result<CheckResult, ServiceError>, second: Result<CheckResult, ServiceError>)
    requires !service.cache.readFails && !service.cache.writeFails
    modifies service.cache`entries, service.cache`ops, service.store`calls
    ensures first.Success? ==> second == first
    ensures first.Success? ==> service.store.calls == old(service.store.calls) + old(service.StoreCallsFor(req))
  {
    first := service.CheckBlacklist(req);
    if first.Success? && old(service.CachedAnswer(req)).None? {
      WrittenPayloadHits(first.value);
    }
    second := service.CheckBlacklist(req);
  }

  /**
   * Name and BirthPlace are joined with ':' unescaped, so two different
   * requests can share a key; here the candidate that one request matches
   * fully the other matches on birth date only.
   */
  lemma NameKeyCollision()
    ensures var a := CheckRequest("John:Jakarta", "", "", ZERO);
            var b := CheckRequest("John", "", "Jakarta:", ZERO);
            var candidates := [BlacklistRecord(1, "", "John", "Jakarta:", ZERO, "fraud")];
            && a != b && CacheKey(a) == CacheKey(b)
            && Classify(a, candidates).matchType == FUZZY_DATE_MATCH
            && Classify(b, candidates).matchType == FUZZY_FULL_MATCH
  {
    var a := CheckRequest("John:Jakarta", "", "", ZERO);
    var b := CheckRequest("John", "", "Jakarta:", ZERO);
    assert a.name + ":" + a.birthPlace == b.name + ":" + b.birthPlace;
  }

  /**
   * A NIK key ignores Name, BirthPlace and BirthDate, yet when GetByNIK
   * finds nothing the result is decided by those fields; two requests with
   * the same unregistered NIK share a key and get different answers.
   */
  lemma NikKeyCollision()
    ensures var a := CheckRequest("John Doe", "3171234567890123", "Jakarta", ZERO);
            var b := CheckRequest("Jane Roe", "3171234567890123", "Bandung", CivilDate(1990, 1, 1));
            var candidates := [BlacklistRecord(1, "", "John Doe", "Jakarta", ZERO, "fraud")];
            && a != b && CacheKey(a) == CacheKey(b)
            && Resolve(a, Success(None), Success(candidates)).value.blacklisted
            && !Resolve(b, Success(None), Success(candidates)).value.blacklisted
  {
  }
}
