/**
 * The data-access layer as the service sees it: the two BlacklistStore
 * calls the check makes (GetByNIK and GetByFuzzyMatch). The SQL and the
 * trigram similarity behind them are not modelled; instead the store holds
 * the answers it gives, a fault that makes a call fail, and a log of the
 * calls made, so that a caller's contract can say which calls happen.
 */
module Store {
  import opened Wrappers
  import opened Dates

  /** A row of the blacklist table, without its timestamps and similarity score. */
  datatype BlacklistRecord = BlacklistRecord(
    id: int,
    nik: string,
    name: string,
    birthPlace: string,
    birthDate: Date,
    reason: string)

  /** An error from the database driver, passed up unchanged. */
  datatype DbError = DbError(message: string)

  /** The arguments of GetByFuzzyMatch; None stands for nil. */
  datatype FuzzyQuery = FuzzyQuery(name: string, birthPlace: Option<string>, birthDate: Option<Date>)

  datatype StoreCall = GetByNikCall(nik: string) | GetByFuzzyMatchCall(query: FuzzyQuery)

  /** Every fuzzy-match query ends in LIMIT 5. */
  const MAX_CANDIDATES := 5

  class BlacklistStore {
    /** The table indexed by its nik column. */
    var byNik: map<string, BlacklistRecord>
    /** The ranked candidate list each fuzzy query returns; a query not in the map returns none. */
    var candidates: map<FuzzyQuery, seq<BlacklistRecord>>
    var nikFault: Option<DbError>
    var fuzzyFault: Option<DbError>
    /** Every call made to this store, in order. */
    ghost var calls: seq<StoreCall>

    /** Each indexed record carries the NIK it is indexed by. */
    ghost predicate NikIndexed()
      reads this`byNik
    {
      forall k :: k in byNik ==> byNik[k].nik == k
    }

    /** The documented LIMIT 5 of every fuzzy query. */
    ghost predicate CandidatesBounded()
      reads this`candidates
    {
      forall q :: q in candidates ==> |candidates[q]| <= MAX_CANDIDATES
    }

    constructor (
      byNik: map<string, BlacklistRecord>,
      candidates: map<FuzzyQuery, seq<BlacklistRecord>>,
      nikFault: Option<DbError>,
      fuzzyFault: Option<DbError>)
      requires forall k :: k in byNik ==> byNik[k].nik == k
      requires forall q :: q in candidates ==> |candidates[q]| <= MAX_CANDIDATES
      ensures NikIndexed() && CandidatesBounded()
      ensures this.byNik == byNik && this.candidates == candidates
      ensures this.nikFault == nikFault && this.fuzzyFault == fuzzyFault
      ensures calls == []
    {
      this.byNik := byNik;
      this.candidates := candidates;
      this.nikFault := nikFault;
      this.fuzzyFault := fuzzyFault;
      calls := [];
    }

    /**
     * What GetByNIK answers: the driver's error, no record (sql.ErrNoRows
     * is turned into a nil record), or the record with that NIK.
     */
    function NikAnswer(nik: string): (r: Result<Option<BlacklistRecord>, DbError>)
      reads this`byNik, this`nikFault
      ensures r.Failure? <==> nikFault.Some?
      ensures r.Success? ==> (r.value.Some? <==> nik in byNik)
      ensures NikIndexed() && r.Success? && r.value.Some? ==> r.value.value.nik == nik
    {
      if nikFault.Some? then Failure(nikFault.value)
      else if nik in byNik then Success(Some(byNik[nik]))
      else Success(None)
    }

    /** What GetByFuzzyMatch answers: the driver's error or the ranked candidate list. */
    function FuzzyAnswer(query: FuzzyQuery): (r: Result<seq<BlacklistRecord>, DbError>)
      reads this`candidates, this`fuzzyFault
      ensures r.Failure? <==> fuzzyFault.Some?
      ensures CandidatesBounded() && r.Success? ==> |r.value| <= MAX_CANDIDATES
      ensures r.Success? && query !in candidates ==> r.value == []
    {
      if fuzzyFault.Some? then Failure(fuzzyFault.value)
      else if query in candidates then Success(candidates[query])
      else Success([])
    }

    method GetByNIK(nik: string) returns (r: Result<Option<BlacklistRecord>, DbError>)
      modifies this`calls
      ensures r == NikAnswer(nik)
      ensures calls == old(calls) + [GetByNikCall(nik)]
    {
      r := NikAnswer(nik);
      calls := calls + [GetByNikCall(nik)];
    }

    method GetByFuzzyMatch(query: FuzzyQuery) returns (r: Result<seq<BlacklistRecord>, DbError>)
      modifies this`calls
      ensures r == FuzzyAnswer(query)
      ensures calls == old(calls) + [GetByFuzzyMatchCall(query)]
    {
      r := FuzzyAnswer(query);
      calls := calls + [GetByFuzzyMatchCall(query)];
    }
  }
}
