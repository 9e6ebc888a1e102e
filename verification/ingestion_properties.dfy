/** What repeated ingestion does to the store and to the report. */
module IngestionProperties {
  import opened Wrappers
  import opened JsonValue
  import opened RecordStore
  import opened Ingestion

  /** Counting the new identifiers of a batch one record at a time. */
  lemma NewIdsSplit(known: set<string>, rest: set<string>, id: string)
    ensures |({id} + rest) - known| == (if id in known then 0 else 1) + |rest - (known + {id})|
  {
    if id in known {
      assert ({id} + rest) - known == rest - (known + {id});
    } else {
      assert ({id} + rest) - known == {id} + (rest - (known + {id}));
    }
  }

  /** The insert count is the number of distinct identifiers of the batch that were not yet stored. */
  lemma {:induction false} InsertedCountsNewIds(s: Store, batch: seq<RawRecord>, from: nat, now: nat, scheme: Scheme)
    requires from <= |batch| && IngestFrom(s, batch, from, now, scheme).1.Success?
    ensures IngestFrom(s, batch, from, now, scheme).1.value.inserted == |Ids(batch, from) - s.Keys|
    decreases |batch| - from
  {
    if from < |batch| {
      var inc := Normalize(batch[from], scheme).value;
      var (o, s1) := Upsert(s, inc, now);
      InsertedCountsNewIds(s1, batch, from + 1, now, scheme);
      var id := inc.objectId;
      assert Ids(batch, from) == {id} + Ids(batch, from + 1);
      NewIdsSplit(s.Keys, Ids(batch, from + 1), id);
    }
  }

  /** Ingesting into an empty store inserts one row per distinct identifier. */
  lemma FirstIngestInsertsAll(batch: seq<RawRecord>, now: nat)
    requires IngestData(map[], batch, now).1.Success?
    ensures IngestData(map[], batch, now).1.value.inserted == |Ids(batch, 0)|
  {
    var empty: Store := map[];
    InsertedCountsNewIds(empty, batch, 0, now, AsWritten);
    assert Ids(batch, 0) - empty.Keys == Ids(batch, 0);
  }

  /** Every stored row holds the value that the as-written normalisation gives its identifier. */
  ghost predicate PropertiesAreIds(s: Store) {
    forall k :: k in s ==> s[k].properties == JStr(k)
  }

  /**
    Under the as-written normalisation, a store whose properties are its
    identifiers stays so, and ingestion never reports an update: every
    identifier already stored is counted as `no_change`.
  */
  lemma {:induction false} AsWrittenNeverUpdates(s: Store, batch: seq<RawRecord>, from: nat, now: nat)
    requires from <= |batch| && PropertiesAreIds(s)
    ensures var r := IngestFrom(s, batch, from, now, AsWritten);
      && PropertiesAreIds(r.0)
      && (r.1.Success? ==> r.1.value.updated == 0)
      && (r.1.Success? ==> r.1.value.noChange == (|batch| - from) - r.1.value.inserted)
    decreases |batch| - from
  {
    if from < |batch| && ConvertDataScheme(batch[from]).Success? {
      var inc := ConvertDataScheme(batch[from]).value;
      var (o, s1) := Upsert(s, inc, now);
      assert o != Updated;
      assert PropertiesAreIds(s1);
      AsWrittenNeverUpdates(s1, batch, from + 1, now);
    }
  }

  /** Under the as-written normalisation, a batch of already stored objects is all `no_change`. */
  lemma KnownIdsAreNoChange(s: Store, batch: seq<RawRecord>, now: nat)
    requires PropertiesAreIds(s) && Ids(batch, 0) <= s.Keys
    requires IngestData(s, batch, now).1.Success?
    ensures IngestData(s, batch, now).1.value == Report(0, 0, |batch|)
  {
    AsWrittenNeverUpdates(s, batch, 0, now);
    InsertedCountsNewIds(s, batch, 0, now, AsWritten);
    assert Ids(batch, 0) - s.Keys == {};
  }

  /** The row under the identifier of `inc` holds the properties `inc` carries. */
  ghost predicate Stored(s: Store, inc: Incoming) {
    inc.objectId in s && s[inc.objectId].properties == inc.properties
  }

  /** Records of the batch that share an identifier normalise to the same properties. */
  ghost predicate Consistent(batch: seq<RawRecord>, scheme: Scheme) {
    forall i, j {:trigger At(batch, i, scheme), At(batch, j, scheme)} ::
      0 <= i < |batch| && 0 <= j < |batch| ==> Agree(At(batch, i, scheme), At(batch, j, scheme))
  }

  /** Record `i` of the batch, normalised. */
  ghost function At(batch: seq<RawRecord>, i: nat, scheme: Scheme): Result<Incoming, Error>
    requires i < |batch|
  {
    Normalize(batch[i], scheme)
  }

  /** Two normalised records under the same identifier carry the same properties. */
  ghost predicate Agree(a: Result<Incoming, Error>, b: Result<Incoming, Error>) {
    a.Success? && b.Success? && a.value.objectId == b.value.objectId ==> a.value.properties == b.value.properties
  }

  /** Each record from index `from` on is stored under its identifier with its normalised properties. */
  ghost predicate Reflects(s: Store, batch: seq<RawRecord>, from: nat, scheme: Scheme)
    decreases |batch| - from
  {
    from >= |batch| ||
    ((Normalize(batch[from], scheme).Success? ==> Stored(s, Normalize(batch[from], scheme).value))
     && Reflects(s, batch, from + 1, scheme))
  }

  /** The as-written normalisation can never disagree with itself. */
  lemma AsWrittenConsistent(batch: seq<RawRecord>)
    ensures Consistent(batch, AsWritten)
  {
  }

  /** No two records of the batch carry the same identifier. */
  ghost predicate DistinctIds(batch: seq<RawRecord>) {
    forall i, j :: 0 <= i < j < |batch| ==> IdOf(batch[i]) !! IdOf(batch[j])
  }

  /** Batches with distinct identifiers are consistent under either normalisation. */
  lemma DistinctIdsConsistent(batch: seq<RawRecord>, scheme: Scheme)
    requires DistinctIds(batch)
    ensures Consistent(batch, scheme)
  {
    forall i, j | 0 <= i < |batch| && 0 <= j < |batch|
      ensures Agree(At(batch, i, scheme), At(batch, j, scheme))
    {
      if i != j && Normalize(batch[i], scheme).Success? && Normalize(batch[j], scheme).Success? {
        assert Normalize(batch[i], scheme).value.objectId in IdOf(batch[i]);
        assert Normalize(batch[j], scheme).value.objectId in IdOf(batch[j]);
      }
    }
  }

  /**
    A row whose stored properties are what every later record with its
    identifier normalises to keeps those properties through ingestion.
  */
  lemma {:induction false} IngestKeepsAgreeingRow(s: Store, batch: seq<RawRecord>, from: nat, now: nat, scheme: Scheme, inc: Incoming)
    requires from <= |batch| && Stored(s, inc)
    requires forall i :: from <= i < |batch| ==> Agree(Success(inc), Normalize(batch[i], scheme))
    ensures Stored(IngestFrom(s, batch, from, now, scheme).0, inc)
    decreases |batch| - from
  {
    if from < |batch| && Normalize(batch[from], scheme).Success? {
      var next := Normalize(batch[from], scheme).value;
      var (o, s1) := Upsert(s, next, now);
      assert Agree(Success(inc), Normalize(batch[from], scheme));
      IngestKeepsAgreeingRow(s1, batch, from + 1, now, scheme, inc);
    }
  }

  /** A completed ingestion of a consistent batch leaves every record of it reflected in the store. */
  lemma {:induction false} IngestReflects(s: Store, batch: seq<RawRecord>, from: nat, now: nat, scheme: Scheme)
    requires from <= |batch| && Consistent(batch, scheme)
    requires IngestFrom(s, batch, from, now, scheme).1.Success?
    ensures Normalizable(batch, from, scheme)
    ensures Reflects(IngestFrom(s, batch, from, now, scheme).0, batch, from, scheme)
    decreases |batch| - from
  {
    if from < |batch| {
      var inc := Normalize(batch[from], scheme).value;
      var (o, s1) := Upsert(s, inc, now);
      var r := IngestFrom(s, batch, from, now, scheme).0;
      IngestReflects(s1, batch, from + 1, now, scheme);
      forall i | from <= i < |batch| ensures Agree(Success(inc), Normalize(batch[i], scheme)) {
        assert Agree(At(batch, from, scheme), At(batch, i, scheme));
      }
      IngestKeepsAgreeingRow(s1, batch, from + 1, now, scheme, inc);
    }
  }

  /** Ingesting records the store already reflects changes nothing and counts them all as `no_change`. */
  lemma {:induction false} IngestReflectedIsNoChange(s: Store, batch: seq<RawRecord>, from: nat, now: nat, scheme: Scheme)
    requires from <= |batch| && Normalizable(batch, from, scheme) && Reflects(s, batch, from, scheme)
    ensures IngestFrom(s, batch, from, now, scheme)
      == (s, Success(Report(0, 0, |batch| - from)))
    decreases |batch| - from
  {
    if from < |batch| {
      var inc := Normalize(batch[from], scheme).value;
      assert Upsert(s, inc, now) == (NoChange, s);
      IngestReflectedIsNoChange(s, batch, from + 1, now, scheme);
    }
  }

  /**
    Re-ingesting a consistent batch that was just ingested reports no inserts
    and no updates, and leaves the store as the first pass left it.
  */
  lemma ReingestConsistent(s: Store, batch: seq<RawRecord>, now: nat, later: nat, scheme: Scheme, s1: Store, first: Report)
    requires Consistent(batch, scheme)
    requires IngestFrom(s, batch, 0, now, scheme) == (s1, Success(first))
    ensures IngestFrom(s1, batch, 0, later, scheme) == (s1, Success(Report(0, 0, |batch|)))
  {
    assert Normalizable(batch, 0, scheme) && Reflects(s1, batch, 0, scheme) by {
      IngestReflects(s, batch, 0, now, scheme);
    }
    IngestReflectedIsNoChange(s1, batch, 0, later, scheme);
  }

  /** `ingest_data` run twice on the same batch: the second report is all `no_change`. */
  lemma ReingestIsNoChange(s: Store, batch: seq<RawRecord>, now: nat, later: nat)
    requires IngestData(s, batch, now).1.Success?
    ensures var s1 := IngestData(s, batch, now).0;
      IngestData(s1, batch, later) == (s1, Success(Report(0, 0, |batch|)))
  {
    AsWrittenConsistent(batch);
    var (s1, first) := IngestData(s, batch, now);
    ReingestConsistent(s, batch, now, later, AsWritten, s1, first.value);
  }

  /** The same for the documented normalisation, provided the batch names each object once. */
  lemma ReingestIntendedIsNoChange(s: Store, batch: seq<RawRecord>, now: nat, later: nat)
    requires DistinctIds(batch)
    requires IngestFrom(s, batch, 0, now, Intended).1.Success?
    ensures var s1 := IngestFrom(s, batch, 0, now, Intended).0;
      IngestFrom(s1, batch, 0, later, Intended) == (s1, Success(Report(0, 0, |batch|)))
  {
    DistinctIdsConsistent(batch, Intended);
    var (s1, first) := IngestFrom(s, batch, 0, now, Intended);
    ReingestConsistent(s, batch, now, later, Intended, s1, first.value);
  }
}
