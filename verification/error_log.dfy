/** The error log of a `Solid`: each error code owns a bucket of records
    kept in insertion order. */
module ErrorLog {

  /** One entry of a bucket: the shell pair it concerns (-1 for "no shell")
      and free-text detail. */
  datatype ErrorRecord = ErrorRecord(shell1: int, shell2: int, info: string)

  type Log = map<int, seq<ErrorRecord>>

  /** The bucket of `code`; a code never used has an empty bucket, as a
      `std::map` lookup through `operator[]` default-constructs one. */
  function Bucket(log: Log, code: int): seq<ErrorRecord>
  {
    if code in log then log[code] else []
  }

  /** `Solid::add_error`: the record goes to the end of its code's bucket;
      every earlier record and every other bucket stays as it was. */
  function AddError(log: Log, code: int, shell1: int, shell2: int, info: string): (r: Log)
    ensures r.Keys == log.Keys + {code}
    ensures |Bucket(r, code)| == |Bucket(log, code)| + 1
    ensures Bucket(r, code)[..|Bucket(log, code)|] == Bucket(log, code)
    ensures Bucket(r, code)[|Bucket(log, code)|] == ErrorRecord(shell1, shell2, info)
    ensures forall c :: c != code ==> Bucket(r, c) == Bucket(log, c)
  {
    log[code := Bucket(log, code) + [ErrorRecord(shell1, shell2, info)]]
  }

  /** Two errors under one code are kept in the order they were added. */
  lemma AddErrorsKeepOrder(log: Log, code: int, a: ErrorRecord, b: ErrorRecord)
    ensures Bucket(AddError(AddError(log, code, a.shell1, a.shell2, a.info), code, b.shell1, b.shell2, b.info), code)
         == Bucket(log, code) + [a, b]
  {
    var once := AddError(log, code, a.shell1, a.shell2, a.info);
    var twice := AddError(once, code, b.shell1, b.shell2, b.info);
    assert Bucket(once, code) == Bucket(log, code) + [a];
    assert Bucket(twice, code) == Bucket(once, code) + [b];
  }

  /** Errors under different codes do not interfere: adding them in either
      order gives the same log. */
  lemma AddErrorsCommute(log: Log, c1: int, a: ErrorRecord, c2: int, b: ErrorRecord)
    requires c1 != c2
    ensures AddError(AddError(log, c1, a.shell1, a.shell2, a.info), c2, b.shell1, b.shell2, b.info)
         == AddError(AddError(log, c2, b.shell1, b.shell2, b.info), c1, a.shell1, a.shell2, a.info)
  {
  }
}
