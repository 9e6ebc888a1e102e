/**
  `convert_data_scheme` keeps the popped identifier as the properties
  (run.py:164), so a stored object never compares different from a later
  record of it whose `objectId` is the same JSON string, and a re-observed
  transient whose measurements changed is reported as `no_change` and never
  reaches the update list. The docstrings describe properties as a dict
  that is compared and updated on change (run.py:67, run.py:176-177); that
  normalisation keeps the rest of the document, and then a changed record
  is reported and flagged as updated.
*/
module Findings {
  import opened Wrappers
  import opened JsonValue
  import opened RecordStore
  import opened Ingestion
  import opened IngestionProperties

  /** The properties the documented normalisation gives a raw record. */
  function Measurements(raw: RawRecord): Json {
    JObj(raw - {"objectId"})
  }

  /**
    As written: a one-record batch naming an object that is already stored
    is `no_change` and leaves the table as it was, whatever its other fields
    say.
  */
  lemma AsWrittenMissesChange(s: Store, batch: seq<RawRecord>, now: nat)
    requires |batch| == 1 && PropertiesAreIds(s)
    requires "objectId" in batch[0] && batch[0]["objectId"].JStr? && batch[0]["objectId"].str in s
    ensures IngestData(s, batch, now) == (s, Success(Report(0, 0, 1)))
  {
    var inc := ConvertDataScheme(batch[0]).value;
    assert Upsert(s, inc, now) == (NoChange, s);
    assert IngestFrom(s, batch, 1, now, AsWritten) == (s, Success(Report(0, 0, 0)));
  }

  /**
    Corrected: a one-record batch naming a stored object is reported as
    `updated` exactly when its measurements differ from the stored ones, and
    then the row holds the new measurements and is on the update list;
    otherwise it is `no_change` and the table is left as it was.
  */
  lemma IntendedReportsChange(s: Store, batch: seq<RawRecord>, now: nat)
    requires |batch| == 1
    requires "objectId" in batch[0] && batch[0]["objectId"].JStr? && batch[0]["objectId"].str in s
    ensures var r := IngestFrom(s, batch, 0, now, Intended);
      r.1 == Success(Report(0, 1, 0)) <==> s[batch[0]["objectId"].str].properties != Measurements(batch[0])
    ensures var r := IngestFrom(s, batch, 0, now, Intended); var id := batch[0]["objectId"].str;
      s[id].properties != Measurements(batch[0]) ==>
        && id in r.0 && r.0[id].properties == Measurements(batch[0])
        && r.0[id] in SearchUpdates(r.0)
    ensures var r := IngestFrom(s, batch, 0, now, Intended);
      s[batch[0]["objectId"].str].properties == Measurements(batch[0]) ==> r == (s, Success(Report(0, 0, 1)))
  {
    var inc := ConvertIntended(batch[0]).value;
    var (o, s1) := Upsert(s, inc, now);
    assert IngestFrom(s1, batch, 1, now, Intended) == (s1, Success(Report(0, 0, 0)));
  }

  /** A transient first seen at magnitude 19.2 ... */
  const FirstSighting: RawRecord := map["objectId" := JStr("ZTF21aaaaaaa"), "mag" := JNum(19.2)]
  /** ... and seen again, brighter, at magnitude 18.9. */
  const SecondSighting: RawRecord := map["objectId" := JStr("ZTF21aaaaaaa"), "mag" := JNum(18.9)]

  /** As written, the brightening is reported as `no_change` and the update list stays empty. */
  lemma BrighteningIsMissed()
    ensures var s1 := IngestData(Initialize(), [FirstSighting], 0).0;
      var r := IngestData(s1, [SecondSighting], 1);
      && r.1 == Success(Report(0, 0, 1))
      && SearchUpdates(r.0) == {}
  {
    var s0 := Initialize();
    AsWrittenNeverUpdates(s0, [FirstSighting], 0, 0);
    var s1 := IngestData(s0, [FirstSighting], 0).0;
    FirstSightingFiled(s0, [FirstSighting], 0);
    AsWrittenMissesChange(s1, [SecondSighting], 1);
  }

  /**
    The first sighting files the transient without the updated flag. This is
    the fixed first sighting of the example, not a general lemma: the fresh
    table and the batch are passed as parameters pinned by `requires` only to
    keep the proof obligation small.
  */
  lemma FirstSightingFiled(s0: Store, batch: seq<RawRecord>, now: nat)
    requires s0 == Initialize() && batch == [FirstSighting]
    ensures var s1 := IngestData(s0, batch, now).0;
      && "ZTF21aaaaaaa" in s1
      && forall x :: x in s1.Values ==> !x.isUpdated
  {
    var inc := ConvertDataScheme(batch[0]).value;
    var (o, s1) := Upsert(s0, inc, now);
    assert IngestFrom(s1, batch, 1, now, AsWritten).0 == s1;
  }

  /** With the documented normalisation the brightening is reported as `updated` and listed. */
  lemma BrighteningIsCaught()
    ensures var s1 := IngestFrom(Initialize(), [FirstSighting], 0, 0, Intended).0;
      var r := IngestFrom(s1, [SecondSighting], 0, 1, Intended);
      && r.1 == Success(Report(0, 1, 0))
      && "ZTF21aaaaaaa" in r.0
      && r.0["ZTF21aaaaaaa"].properties == JObj(map["mag" := JNum(18.9)])
      && r.0["ZTF21aaaaaaa"] in SearchUpdates(r.0)
  {
    var s1 := IngestFrom(Initialize(), [FirstSighting], 0, 0, Intended).0;
    FirstSightingIntended(Initialize(), [FirstSighting], 0);
    assert SecondSighting - {"objectId"} == map["mag" := JNum(18.9)];
    var before: map<string, Json> := map["mag" := JNum(19.2)];
    assert before["mag"] != (SecondSighting - {"objectId"})["mag"];
    assert s1["ZTF21aaaaaaa"].properties != Measurements(SecondSighting);
    IntendedReportsChange(s1, [SecondSighting], 1);
  }

  /**
    With the documented normalisation the first sighting stores its
    magnitude. Like `FirstSightingFiled`, this is the fixed first sighting of
    the example, with the table and batch pinned by `requires` to keep the
    proof obligation small.
  */
  lemma FirstSightingIntended(s0: Store, batch: seq<RawRecord>, now: nat)
    requires s0 == Initialize() && batch == [FirstSighting]
    ensures var s1 := IngestFrom(s0, batch, 0, now, Intended).0;
      && "ZTF21aaaaaaa" in s1
      && s1["ZTF21aaaaaaa"].properties == JObj(map["mag" := JNum(19.2)])
  {
    var inc := ConvertIntended(batch[0]).value;
    var (o, s1) := Upsert(s0, inc, now);
    assert IngestFrom(s1, batch, 1, now, Intended).0 == s1;
    assert FirstSighting - {"objectId"} == map["mag" := JNum(19.2)];
  }
}
