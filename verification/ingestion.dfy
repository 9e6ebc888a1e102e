/**
  The ingestion component: `convert_data_scheme` normalises one decoded JSON
  object, and `ingest_data` upserts a batch of them in order while counting
  the three outcomes.
*/
module Ingestion {
  import opened Wrappers
  import opened JsonValue
  import opened RecordStore

  /** One element of the decoded JSON array: a JSON object. */
  type RawRecord = map<string, Json>

  datatype Error =
    | MissingObjectId      // `record['objectId']` raises KeyError
    | ObjectIdNotText      // the identifier is not a JSON string

  /** The `report` dictionary of `ingest_data`. */
  datatype Report = Report(inserted: nat, updated: nat, noChange: nat)

  /**
    Which normalisation to use: the one the program performs, or the one its
    docstrings describe, where properties are a dict (run.py:67) holding the
    rest of the document.
  */
  datatype Scheme = AsWritten | Intended

  const LinkPrefix: string := "https://lasair-ztf.lsst.ac.uk/objects/"

  /** The object page URL built from an identifier. */
  function LinkFor(id: string): string {
    LinkPrefix + id + "/"
  }

  /** Recovers the identifier from an object page URL. */
  function IdOfLink(link: string): Option<string> {
    if |link| >= |LinkPrefix| + 1 && link[..|LinkPrefix|] == LinkPrefix && link[|link| - 1] == '/'
    then Some(link[|LinkPrefix|..|link| - 1])
    else None
  }

  /** The link is a faithful encoding of the identifier: decoding it gives the identifier back. */
  lemma LinkRoundTrip(id: string)
    ensures IdOfLink(LinkFor(id)) == Some(id)
  {
    var link := LinkFor(id);
    assert link[..|LinkPrefix|] == LinkPrefix;
    assert link[|LinkPrefix|..|link| - 1] == id;
  }

  /**
    `convert_data_scheme` as written: the identifier is popped from the
    document and that popped value, not the remaining document, becomes the
    properties.
  */
  function ConvertDataScheme(raw: RawRecord): (r: Result<Incoming, Error>)
    ensures "objectId" !in raw ==> r == Failure(MissingObjectId)
    ensures r.Success? <==> "objectId" in raw && raw["objectId"].JStr?
    ensures r.Success? ==> r.value.objectId == raw["objectId"].str
    ensures r.Success? ==> r.value.properties == raw["objectId"]
    ensures r.Success? ==> r.value.link == Some(LinkFor(r.value.objectId))
    ensures r.Success? ==> r.value.tags.None? && r.value.comments.None?
  {
    if "objectId" !in raw then Failure(MissingObjectId)
    else match raw["objectId"]
      case JStr(id) => Success(Incoming(id, raw["objectId"], None, None, Some(LinkFor(id))))
      case _ => Failure(ObjectIdNotText)
  }

  /** The documented normalisation: everything but the identifier is the properties. */
  function ConvertIntended(raw: RawRecord): (r: Result<Incoming, Error>)
    ensures "objectId" !in raw ==> r == Failure(MissingObjectId)
    ensures r.Success? <==> "objectId" in raw && raw["objectId"].JStr?
    ensures r.Success? ==> r.value.objectId == raw["objectId"].str
    ensures r.Success? ==> r.value.properties.JObj? && "objectId" !in r.value.properties.fields
    ensures r.Success? ==> forall k :: k in raw && k != "objectId" ==>
      k in r.value.properties.fields && r.value.properties.fields[k] == raw[k]
    ensures r.Success? ==> r.value.properties.fields.Keys == raw.Keys - {"objectId"}
    ensures r.Success? ==> r.value.link == Some(LinkFor(r.value.objectId))
    ensures r.Success? ==> r.value.tags.None? && r.value.comments.None?
  {
    if "objectId" !in raw then Failure(MissingObjectId)
    else match raw["objectId"]
      case JStr(id) => Success(Incoming(id, JObj(raw - {"objectId"}), None, None, Some(LinkFor(id))))
      case _ => Failure(ObjectIdNotText)
  }

  function Normalize(raw: RawRecord, scheme: Scheme): Result<Incoming, Error> {
    match scheme
    case AsWritten => ConvertDataScheme(raw)
    case Intended => ConvertIntended(raw)
  }

  /** The identifier a raw record would be filed under, if it has a usable one. */
  function IdOf(raw: RawRecord): set<string> {
    if "objectId" in raw && raw["objectId"].JStr? then {raw["objectId"].str} else {}
  }

  /** All identifiers of the records from index `from` on. */
  function Ids(batch: seq<RawRecord>, from: nat): set<string>
    decreases |batch| - from
  {
    if from >= |batch| then {} else IdOf(batch[from]) + Ids(batch, from + 1)
  }

  /** Every record from index `from` on can be normalised. */
  ghost predicate Normalizable(batch: seq<RawRecord>, from: nat, scheme: Scheme) {
    forall i :: from <= i < |batch| ==> Normalize(batch[i], scheme).Success?
  }

  function Total(r: Report): nat {
    r.inserted + r.updated + r.noChange
  }

  /** One step of the counting in `ingest_data`. */
  function Tally(acc: Report, o: Outcome): Report {
    match o
    case Inserted => acc.(inserted := acc.inserted + 1)
    case Updated => acc.(updated := acc.updated + 1)
    case NoChange => acc.(noChange := acc.noChange + 1)
  }

  /** Counts `o` into a report, unless the ingestion it belongs to failed. */
  function Count(o: Outcome, r: Result<Report, Error>): Result<Report, Error> {
    if r.Failure? then r else Success(Tally(r.value, o))
  }

  /** Adds the running counts `acc` to the report of the rest of the batch. */
  function AddTo(acc: Report, r: Result<Report, Error>): Result<Report, Error> {
    if r.Failure? then r
    else Success(Report(acc.inserted + r.value.inserted, acc.updated + r.value.updated, acc.noChange + r.value.noChange))
  }

  /** Counting an outcome before or after the rest of the batch gives the same report. */
  lemma CountShifts(acc: Report, o: Outcome, r: Result<Report, Error>)
    ensures AddTo(acc, Count(o, r)) == AddTo(Tally(acc, o), r)
  {
  }

  /**
    The loop of `ingest_data` from record `from` on, with the counts of those
    records. A record that cannot be normalised raises and abandons the rest
    of the batch; the upserts before it have already been committed, so the
    store they produced is kept and the report is lost.
  */
  function IngestFrom(s: Store, batch: seq<RawRecord>, from: nat, now: nat, scheme: Scheme)
    : (r: (Store, Result<Report, Error>))
    requires from <= |batch|
    decreases |batch| - from
    ensures r.1.Success? <==> Normalizable(batch, from, scheme)
    ensures r.1.Success? ==> Total(r.1.value) == |batch| - from
  {
    if from == |batch| then (s, Success(Report(0, 0, 0)))
    else match Normalize(batch[from], scheme)
      case Failure(e) => (s, Failure(e))
      case Success(inc) =>
        var (o, s') := Upsert(s, inc, now);
        var (s'', rest) := IngestFrom(s', batch, from + 1, now, scheme);
        (s'', Count(o, rest))
  }

  /** `ingest_data` on an already decoded batch. */
  function IngestData(s: Store, batch: seq<RawRecord>, now: nat): (r: (Store, Result<Report, Error>))
    ensures r.1.Success? <==> forall i :: 0 <= i < |batch| ==> ConvertDataScheme(batch[i]).Success?
    ensures r.1.Success? ==> Total(r.1.value) == |batch|
  {
    IngestFrom(s, batch, 0, now, AsWritten)
  }

  /** `ingest_data` as a loop over the batch, counting as it goes, as the program runs it. */
  method RunIngest(s: Store, batch: seq<RawRecord>, now: nat) returns (store: Store, report: Result<Report, Error>)
    ensures (store, report) == IngestData(s, batch, now)
    ensures report.Success? ==> Total(report.value) == |batch|
  {
    ghost var goal := IngestData(s, batch, now);
    store := s;
    var acc := Report(0, 0, 0);
    var i := 0;
    while i < |batch|
      invariant 0 <= i <= |batch|
      invariant Resumes(goal, store, batch, i, now, acc)
    {
      var normalized := ConvertDataScheme(batch[i]);
      ResumeStep(goal, store, batch, i, now, acc);
      if normalized.Failure? {
        return store, Failure(normalized.error);
      }
      var (outcome, next) := Upsert(store, normalized.value, now);
      store := next;
      acc := Tally(acc, outcome);
      i := i + 1;
    }
    ResumeDone(goal, store, batch, now, acc);
    report := Success(acc);
  }

  /**
    The loop of `ingest_data` has reached record `i` with table `store` and
    running counts `acc`, and finishing the batch from there gives `goal`.
  */
  ghost predicate Resumes(goal: (Store, Result<Report, Error>), store: Store, batch: seq<RawRecord>, i: nat, now: nat, acc: Report)
    requires i <= |batch|
  {
    && goal.0 == IngestFrom(store, batch, i, now, AsWritten).0
    && goal.1 == AddTo(acc, IngestFrom(store, batch, i, now, AsWritten).1)
  }

  /** One turn of the loop either stops with the record's error or moves on to the next record. */
  lemma ResumeStep(goal: (Store, Result<Report, Error>), store: Store, batch: seq<RawRecord>, i: nat, now: nat, acc: Report)
    requires i < |batch| && Resumes(goal, store, batch, i, now, acc)
    ensures ConvertDataScheme(batch[i]).Failure? ==> goal == (store, Failure(ConvertDataScheme(batch[i]).error))
    ensures ConvertDataScheme(batch[i]).Success? ==>
      var (o, next) := Upsert(store, ConvertDataScheme(batch[i]).value, now);
      Resumes(goal, next, batch, i + 1, now, Tally(acc, o))
  {
    IngestStep(store, batch, i, now, AsWritten);
    if ConvertDataScheme(batch[i]).Success? {
      var (o, next) := Upsert(store, ConvertDataScheme(batch[i]).value, now);
      CountShifts(acc, o, IngestFrom(next, batch, i + 1, now, AsWritten).1);
    }
  }

  /** At the end of the batch the running counts are the report and the table is the result. */
  lemma ResumeDone(goal: (Store, Result<Report, Error>), store: Store, batch: seq<RawRecord>, now: nat, acc: Report)
    requires Resumes(goal, store, batch, |batch|, now, acc)
    ensures goal == (store, Success(acc))
  {
  }

  /** One turn of the loop of `ingest_data`: normalise the record, then upsert it and go on. */
  lemma IngestStep(s: Store, batch: seq<RawRecord>, i: nat, now: nat, scheme: Scheme)
    requires i < |batch|
    ensures Normalize(batch[i], scheme).Failure? ==>
      IngestFrom(s, batch, i, now, scheme) == (s, Failure(Normalize(batch[i], scheme).error))
    ensures Normalize(batch[i], scheme).Success? ==>
      var (o, next) := Upsert(s, Normalize(batch[i], scheme).value, now);
      var after := IngestFrom(next, batch, i + 1, now, scheme);
      IngestFrom(s, batch, i, now, scheme) == (after.0, Count(o, after.1))
  {
  }

  /**
    The table after upserting records `from` up to (not including) `to`,
    each at clock reading `now`: the writes already committed when record
    `to` is reached.
  */
  function Committed(s: Store, batch: seq<RawRecord>, from: nat, to: nat, now: nat, scheme: Scheme): Store
    requires from <= to <= |batch|
    decreases |batch| - from
  {
    if from == to then s
    else match Normalize(batch[from], scheme)
      case Failure(_) => s
      case Success(inc) => Committed(Upsert(s, inc, now).1, batch, from + 1, to, now, scheme)
  }

  /**
    A failed ingestion stops at the first record that cannot be normalised:
    every record before it normalises, the error is that record's, and the
    table holds exactly the upserts of the records before it.
  */
  lemma {:induction false} IngestFailureNamesRecord(s: Store, batch: seq<RawRecord>, from: nat, now: nat, scheme: Scheme)
    requires from <= |batch| && IngestFrom(s, batch, from, now, scheme).1.Failure?
    ensures exists i ::
      && from <= i < |batch|
      && Normalize(batch[i], scheme) == Failure(IngestFrom(s, batch, from, now, scheme).1.error)
      && (forall j :: from <= j < i ==> Normalize(batch[j], scheme).Success?)
      && IngestFrom(s, batch, from, now, scheme).0 == Committed(s, batch, from, i, now, scheme)
    decreases |batch| - from
  {
    match Normalize(batch[from], scheme)
    case Failure(_) =>
      assert Committed(s, batch, from, from, now, scheme) == s;
    case Success(inc) =>
      var (o, s1) := Upsert(s, inc, now);
      IngestStep(s, batch, from, now, scheme);
      IngestFailureNamesRecord(s1, batch, from + 1, now, scheme);
      var i :| && from + 1 <= i < |batch|
               && Normalize(batch[i], scheme) == Failure(IngestFrom(s1, batch, from + 1, now, scheme).1.error)
               && (forall j :: from + 1 <= j < i ==> Normalize(batch[j], scheme).Success?)
               && IngestFrom(s1, batch, from + 1, now, scheme).0 == Committed(s1, batch, from + 1, i, now, scheme);
      assert Committed(s, batch, from, i, now, scheme) == Committed(s1, batch, from + 1, i, now, scheme);
  }

  /** A completed ingestion holds exactly the upserts of the whole batch. */
  lemma {:induction false} IngestCommitsAll(s: Store, batch: seq<RawRecord>, from: nat, now: nat, scheme: Scheme)
    requires from <= |batch| && IngestFrom(s, batch, from, now, scheme).1.Success?
    ensures IngestFrom(s, batch, from, now, scheme).0 == Committed(s, batch, from, |batch|, now, scheme)
    decreases |batch| - from
  {
    if from < |batch| {
      var inc := Normalize(batch[from], scheme).value;
      var (o, s1) := Upsert(s, inc, now);
      IngestStep(s, batch, from, now, scheme);
      IngestCommitsAll(s1, batch, from + 1, now, scheme);
    }
  }

  /**
    Ingestion never drops a row, and a completed ingestion leaves exactly the
    rows that were there plus one per identifier of the batch.
  */
  lemma {:induction false} IngestKeys(s: Store, batch: seq<RawRecord>, from: nat, now: nat, scheme: Scheme)
    requires from <= |batch|
    ensures var r := IngestFrom(s, batch, from, now, scheme);
      && s.Keys <= r.0.Keys
      && (r.1.Success? ==> r.0.Keys == s.Keys + Ids(batch, from))
    decreases |batch| - from
  {
    if from < |batch| && Normalize(batch[from], scheme).Success? {
      var inc := Normalize(batch[from], scheme).value;
      var (o, s1) := Upsert(s, inc, now);
      IngestStep(s, batch, from, now, scheme);
      var r1 := IngestFrom(s1, batch, from + 1, now, scheme);
      assert IngestFrom(s, batch, from, now, scheme).0 == r1.0;
      assert IngestFrom(s, batch, from, now, scheme).1.Success? ==> r1.1.Success?;
      IngestKeys(s1, batch, from + 1, now, scheme);
      assert Ids(batch, from) == {inc.objectId} + Ids(batch, from + 1);
    }
  }

  /** Ingestion at time `now` keeps every row filed under its own id and never dated before its creation. */
  lemma {:induction false} IngestPreservesWellFormed(s: Store, batch: seq<RawRecord>, from: nat, now: nat, scheme: Scheme)
    requires from <= |batch| && WellFormed(s) && NotAfter(s, now)
    ensures var r := IngestFrom(s, batch, from, now, scheme).0; WellFormed(r) && NotAfter(r, now)
    decreases |batch| - from
  {
    if from < |batch| && Normalize(batch[from], scheme).Success? {
      var inc := Normalize(batch[from], scheme).value;
      var (o, s1) := Upsert(s, inc, now);
      IngestPreservesWellFormed(s1, batch, from + 1, now, scheme);
    }
  }
}
