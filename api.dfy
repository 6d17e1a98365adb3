/**
 * Handler.CheckBlacklist: the HTTP handler in front of the service. It
 * decodes the body, rejects a name shorter than three bytes and a NIK that
 * is not sixteen ASCII digits, maps the optional fields to their zero
 * values, calls the service and writes either an error or the result.
 */
module Api {
  import opened Wrappers
  import opened Dates
  import Service
  import Store
  import Redis

  /** The decoded JSON body; None stands for an omitted (or null) field. */
  datatype CheckRequestBody = CheckRequestBody(
    name: string,
    nik: Option<string>,
    birthPlace: Option<string>,
    birthDate: Option<Date>)

  datatype CheckResponse = CheckResponse(blacklisted: bool, details: string, matchType: string)

  const STATUS_OK := 200
  const STATUS_BAD_REQUEST := 400
  const STATUS_INTERNAL_SERVER_ERROR := 500

  const MIN_NAME_BYTES := 3
  const NIK_DIGITS := 16

  const INVALID_BODY_MESSAGE := "Invalid request body"
  const NAME_TOO_SHORT_MESSAGE := "Name must be at least 3 characters long"
  const INVALID_NIK_MESSAGE := "NIK must be a 16-digit number"
  const INTERNAL_ERROR_MESSAGE := "Internal server error"

  // ---------------------------------------------------------------------
  // Validation

  /** Bytes of a character in UTF-8. */
  function Utf8Width(c: char): nat {
    if c as int < 0x80 then 1
    else if c as int < 0x800 then 2
    else if c as int < 0x10000 then 3
    else 4
  }

  /** Go's len of a string: its length in UTF-8 bytes. */
  function Utf8Length(s: string): (n: nat)
    ensures |s| <= n <= 4 * |s|
    ensures n == 0 <==> s == []
  {
    if s == [] then 0 else Utf8Width(s[0]) + Utf8Length(s[1..])
  }

  predicate IsAscii(s: string) {
    forall i :: 0 <= i < |s| ==> s[i] as int < 0x80
  }

  /** For an ASCII name, bytes and characters agree. */
  lemma {:induction false} AsciiLength(s: string)
    requires IsAscii(s)
    ensures Utf8Length(s) == |s|
  {
    if s != [] {
      assert IsAscii(s[1..]) by {
        forall i | 0 <= i < |s[1..]| ensures s[1..][i] as int < 0x80 {
          assert s[1..][i] == s[i + 1];
        }
      }
      AsciiLength(s[1..]);
    }
  }

  predicate IsDigit(c: char) {
    '0' <= c <= '9'
  }

  /** The length of the run of \d (in Go's regexp, [0-9]) that starts the text. */
  function LeadingDigits(s: string): (n: nat)
    ensures n <= |s|
    ensures forall i :: 0 <= i < n ==> IsDigit(s[i])
    ensures n < |s| ==> !IsDigit(s[n])
  {
    if s != [] && IsDigit(s[0]) then 1 + LeadingDigits(s[1..]) else 0
  }

  /**
   * The pattern ^\d{16}$: sixteen digits from the start, and $ (the end
   * of the text, not of a line) right after them.
   */
  function IsNik(s: string): (b: bool)
    ensures b <==> |s| == NIK_DIGITS && forall i :: 0 <= i < |s| ==> IsDigit(s[i])
  {
    LeadingDigits(s) == NIK_DIGITS && |s| == NIK_DIGITS
  }

  predicate NameLongEnough(name: string) {
    Utf8Length(name) >= MIN_NAME_BYTES
  }

  /** An omitted NIK passes; a given one must match the pattern. */
  predicate NikAcceptable(nik: Option<string>) {
    nik.None? || IsNik(nik.value)
  }

  datatype Rejection = MalformedBody | NameTooShort | MalformedNik

  /** The first check that fails, in the handler's order: body, then name, then NIK. */
  function RejectionOf(body: Option<CheckRequestBody>): (r: Option<Rejection>)
    ensures r.None? <==> body.Some? && NameLongEnough(body.value.name) && NikAcceptable(body.value.nik)
    ensures r == Some(MalformedBody) <==> body.None?
    ensures r == Some(NameTooShort) <==> body.Some? && !NameLongEnough(body.value.name)
    ensures r == Some(MalformedNik) <==>
      body.Some? && NameLongEnough(body.value.name) && !NikAcceptable(body.value.nik)
  {
    if body.None? then Some(MalformedBody)
    else if !NameLongEnough(body.value.name) then Some(NameTooShort)
    else if !NikAcceptable(body.value.nik) then Some(MalformedNik)
    else None
  }

  function RejectionMessage(r: Rejection): string {
    match r
    case MalformedBody => INVALID_BODY_MESSAGE
    case NameTooShort => NAME_TOO_SHORT_MESSAGE
    case MalformedNik => INVALID_NIK_MESSAGE
  }

  /** A name of two characters passes when one of them takes two bytes. */
  lemma TwoCharacterNameAccepted()
    ensures RejectionOf(Some(CheckRequestBody("Jé", None, None, None))).None?
  {
  }

  /** A present but empty NIK is rejected; only an omitted one skips the check. */
  lemma EmptyNikRejected(name: string)
    requires NameLongEnough(name)
    ensures RejectionOf(Some(CheckRequestBody(name, Some(""), None, None))) == Some(MalformedNik)
    ensures RejectionOf(Some(CheckRequestBody(name, None, None, None))).None?
  {
  }

  // ---------------------------------------------------------------------
  // Mapping to the service request

  /** Present fields are copied; an omitted field becomes its zero value. */
  function ServiceRequestOf(body: CheckRequestBody): (req: Service.CheckRequest)
    ensures req.name == body.name
    ensures body.nik.Some? ==> req.nik == body.nik.value
    ensures body.nik.None? ==> req.nik == ""
    ensures body.birthPlace.Some? ==> req.birthPlace == body.birthPlace.value
    ensures body.birthPlace.None? ==> req.birthPlace == ""
    ensures body.birthDate.Some? ==> req.birthDate == body.birthDate.value
    ensures body.birthDate.None? ==> req.birthDate == ZERO
  {
    Service.CheckRequest(
      body.name,
      match body.nik case Some(n) => n case None => "",
      match body.birthPlace case Some(p) => p case None => "",
      match body.birthDate case Some(d) => d case None => ZERO)
  }

  /** An accepted request with a NIK reaches the service with that 16-digit NIK, hence a NIK cache key. */
  lemma AcceptedNikIsUsed(body: CheckRequestBody)
    requires RejectionOf(Some(body)).None? && body.nik.Some?
    ensures ServiceRequestOf(body).nik != ""
    ensures IsNik(Service.CacheKey(ServiceRequestOf(body))[|Service.NIK_KEY_PREFIX|..])
  {
  }

  /**
   * An omitted birth date is the zero date and is still compared: a
   * candidate born on 0001-01-01 gives a fuzzy_date_match.
   */
  lemma OmittedBirthDateIsCompared(name: string, rec: Store.BlacklistRecord)
    requires rec.birthDate == ZERO && rec.birthPlace != ""
    ensures var req := ServiceRequestOf(CheckRequestBody(name, None, None, None));
            Service.Classify(req, [rec]) == Service.CheckResult(true, rec.reason, Service.FUZZY_DATE_MATCH)
  {
  }

  // ---------------------------------------------------------------------
  // The response writer and the handler

  datatype Chunk = Text(text: string) | Json(response: CheckResponse)

  const CONTENT_TYPE := "Content-Type"
  const NOSNIFF_HEADER := "X-Content-Type-Options"
  const TEXT_PLAIN := "text/plain; charset=utf-8"
  const APPLICATION_JSON := "application/json"

  /** What a handler writes: header fields, the status (0 until written) and the body. */
  class ResponseWriter {
    var header: map<string, string>
    var status: nat
    var body: seq<Chunk>

    constructor ()
      ensures header == map[] && status == 0 && body == []
    {
      header := map[];
      status := 0;
      body := [];
    }

    predicate Unwritten()
      reads this
    {
      status == 0 && body == []
    }

    method SetHeader(key: string, value: string)
      modifies this`header
      ensures header == old(header)[key := value]
    {
      header := header[key := value];
    }

    /** http.Error: plain-text headers, the status, and the message with a newline. */
    method Error(message: string, code: nat)
      modifies this
      ensures header == old(header)[CONTENT_TYPE := TEXT_PLAIN][NOSNIFF_HEADER := "nosniff"]
      ensures status == if old(status) == 0 then code else old(status)
      ensures body == old(body) + [Text(message + "\n")]
    {
      header := header[CONTENT_TYPE := TEXT_PLAIN][NOSNIFF_HEADER := "nosniff"];
      if status == 0 {
        status := code;
      }
      body := body + [Text(message + "\n")];
    }

    /** json.NewEncoder(w).Encode: writing the body implies status 200 if none was written. */
    method Encode(response: CheckResponse)
      modifies this`status, this`body
      ensures status == if old(status) == 0 then STATUS_OK else old(status)
      ensures body == old(body) + [Json(response)]
    {
      if status == 0 {
        status := STATUS_OK;
      }
      body := body + [Json(response)];
    }
  }

  /**
   * The response for an outcome of the check, over the header fields the
   * writer held before: 500 with the generic message for any service
   * error, otherwise 200 with the result as JSON.
   */
  ghost predicate WroteOutcome(
    w: ResponseWriter, header0: map<string, string>, outcome: Result<Service.CheckResult, Service.ServiceError>)
    reads w
  {
    if outcome.Failure? then
      && w.status == STATUS_INTERNAL_SERVER_ERROR
      && w.body == [Text(INTERNAL_ERROR_MESSAGE + "\n")]
      && w.header == header0[CONTENT_TYPE := TEXT_PLAIN][NOSNIFF_HEADER := "nosniff"]
    else
      && w.status == STATUS_OK
      && w.body == [Json(CheckResponse(outcome.value.blacklisted, outcome.value.details, outcome.value.matchType))]
      && w.header == header0[CONTENT_TYPE := APPLICATION_JSON]
  }

  /**
   * The cache after one service check, from the entries and operations it
   * started with: one GET under the request's key, and on a miss that
   * succeeds one SET of the encoded result for 24 hours, which changes the
   * entries unless the write fails.
   */
  ghost predicate CacheAfter(
    req: Service.CheckRequest,
    entries0: map<string, Redis.Entry>, entries1: map<string, Redis.Entry>,
    ops0: seq<Redis.CacheOp>, ops1: seq<Redis.CacheOp>, writeFails: bool,
    cached: Option<Service.CheckResult>, outcome: Result<Service.CheckResult, Service.ServiceError>)
  {
    var key := Service.CacheKey(req);
    var written := cached.None? && outcome.Success?;
    && ops1 == ops0 + [Redis.GetOp(key)]
      + (if written then [Redis.SetOp(key, Service.Encode(outcome.value), Service.CACHE_TTL_SECONDS)] else [])
    && entries1 ==
      if written && !writeFails
      then entries0[key := Redis.Entry(Service.Encode(outcome.value), Service.CACHE_TTL_SECONDS)]
      else entries0
  }

  class Handler {
    const service: Service.BlacklistService

    constructor (service: Service.BlacklistService)
      ensures this.service == service
    {
      this.service := service;
    }

    method CheckBlacklist(w: ResponseWriter, body: Option<CheckRequestBody>)
      requires w.Unwritten()
      modifies w, service.cache`entries, service.cache`ops, service.store`calls
      ensures RejectionOf(body).Some? ==>
        && w.status == STATUS_BAD_REQUEST
        && w.body == [Text(RejectionMessage(RejectionOf(body).value) + "\n")]
        && w.header == old(w.header)[CONTENT_TYPE := TEXT_PLAIN][NOSNIFF_HEADER := "nosniff"]
        && unchanged(service.cache) && unchanged(service.store)
      ensures RejectionOf(body).None? ==>
        var req := ServiceRequestOf(body.value);
        && service.store.calls == old(service.store.calls) + old(service.StoreCallsFor(req))
        && CacheAfter(req, old(service.cache.entries), service.cache.entries,
             old(service.cache.ops), service.cache.ops, service.cache.writeFails,
             old(service.CachedAnswer(req)), old(service.Outcome(req)))
        && WroteOutcome(w, old(w.header), old(service.Outcome(req)))
    {
      if body.None? {
        w.Error(INVALID_BODY_MESSAGE, STATUS_BAD_REQUEST);
        return;
      }
      var req := body.value;

      if Utf8Length(req.name) < MIN_NAME_BYTES {
        w.Error(NAME_TOO_SHORT_MESSAGE, STATUS_BAD_REQUEST);
        return;
      }

      if req.nik.Some? && !IsNik(req.nik.value) {
        w.Error(INVALID_NIK_MESSAGE, STATUS_BAD_REQUEST);
        return;
      }

      var serviceReq := Service.CheckRequest(req.name, "", "", ZERO);
      if req.nik.Some? {
        serviceReq := serviceReq.(nik := req.nik.value);
      }
      if req.birthPlace.Some? {
        serviceReq := serviceReq.(birthPlace := req.birthPlace.value);
      }
      if req.birthDate.Some? {
        serviceReq := serviceReq.(birthDate := req.birthDate.value);
      }
      assert serviceReq == ServiceRequestOf(req);
      Respond(w, serviceReq);
    }

    /** Runs the check for a validated request and writes its outcome. */
    method Respond(w: ResponseWriter, req: Service.CheckRequest)
      requires w.Unwritten()
      modifies w, service.cache`entries, service.cache`ops, service.store`calls
      ensures service.store.calls == old(service.store.calls) + old(service.StoreCallsFor(req))
      ensures CacheAfter(req, old(service.cache.entries), service.cache.entries,
        old(service.cache.ops), service.cache.ops, service.cache.writeFails,
        old(service.CachedAnswer(req)), old(service.Outcome(req)))
      ensures WroteOutcome(w, old(w.header), old(service.Outcome(req)))
    {
      var result := service.CheckBlacklist(req);
      if result.Failure? {
        w.Error(INTERNAL_ERROR_MESSAGE, STATUS_INTERNAL_SERVER_ERROR);
        return;
      }

      w.SetHeader(CONTENT_TYPE, APPLICATION_JSON);
      w.Encode(CheckResponse(result.value.blacklisted, result.value.details, result.value.matchType));
    }
  }
}
