/**
  Sequences of the operations on one table: recreate it, ingest a batch,
  comment on an object, or mark one removed. Nothing in the program ever
  sets the annotation status, and under the as-written normalisation a
  record whose `objectId` is a JSON string never reaches the update path, so
  both the annotation query and the update list stay empty in every state
  these operations reach from text identifiers.
*/
module Session {
  import opened JsonValue
  import opened RecordStore
  import opened Ingestion
  import opened IngestionProperties

  datatype Command =
    | Reset                                   // `create_table(initialize=True)`
    | Ingest(batch: seq<RawRecord>)           // `ingest_data`
    | CommentOn(objectId: string, text: string) // `add_comment`
    | Remove(objectId: string)                // `mark_as_removed`

  /** A command together with the clock reading it runs at. */
  datatype Timed = Timed(command: Command, now: nat)

  /** The table after one command. A failed ingestion keeps the rows it had already written. */
  function Step(s: Store, t: Timed): Store {
    match t.command
    case Reset => Initialize()
    case Ingest(batch) => IngestData(s, batch, t.now).0
    case CommentOn(id, text) => AddComment(s, id, text, t.now).1
    case Remove(id) => MarkRemoved(s, id, t.now)
  }

  /** The table after a whole session of commands, in order. */
  function Run(s: Store, session: seq<Timed>): Store
    decreases |session|
  {
    if |session| == 0 then s else Run(Step(s, session[0]), session[1..])
  }

  /**
    What every table built by these commands satisfies: rows sit under their
    own identifiers, carry their identifier as properties, and have neither
    an annotation nor the updated flag.
  */
  ghost predicate Healthy(s: Store) {
    && PropertiesAreIds(s)
    && forall k :: k in s ==> s[k].objectId == k && !s[k].astronote && !s[k].isUpdated
  }

  /** Ingestion from index `from` on keeps a table healthy. */
  lemma {:induction false} IngestKeepsHealthy(s: Store, batch: seq<RawRecord>, from: nat, now: nat)
    requires from <= |batch| && Healthy(s)
    ensures Healthy(IngestFrom(s, batch, from, now, AsWritten).0)
    decreases |batch| - from
  {
    if from < |batch| && ConvertDataScheme(batch[from]).Success? {
      var inc := ConvertDataScheme(batch[from]).value;
      var (o, s1) := Upsert(s, inc, now);
      assert o != Updated;
      IngestKeepsHealthy(s1, batch, from + 1, now);
    }
  }

  /** Every command keeps a table healthy. */
  lemma StepKeepsHealthy(s: Store, t: Timed)
    requires Healthy(s)
    ensures Healthy(Step(s, t))
  {
    match t.command
    case Reset =>
    case Ingest(batch) => IngestKeepsHealthy(s, batch, 0, t.now);
    case CommentOn(id, text) =>
    case Remove(id) =>
  }

  /** A whole session keeps a table healthy. */
  lemma {:induction false} RunKeepsHealthy(s: Store, session: seq<Timed>)
    requires Healthy(s)
    ensures Healthy(Run(s, session))
    decreases |session|
  {
    if |session| > 0 {
      StepKeepsHealthy(s, session[0]);
      RunKeepsHealthy(Step(s, session[0]), session[1..]);
    }
  }

  /**
    Starting from a fresh table, no session ever produces a row for the
    update list or for the annotation query, and every row's properties are
    its own identifier.
  */
  lemma QueriesStayEmpty(session: seq<Timed>)
    ensures var s := Run(Initialize(), session);
      && SearchUpdates(s) == {}
      && SearchByAstronote(s, true) == {}
      && forall k :: k in s ==> s[k].properties == JStr(k)
  {
    RunKeepsHealthy(Initialize(), session);
    var s := Run(Initialize(), session);
    assert forall x :: x in s.Values ==> !x.isUpdated && !x.astronote;
  }
}
