/**
  The `transients` table of `DatabaseManager` as a keyed store: one Record per
  `objectId`, and every SQL statement of the class as a pure transition or
  filter over the map. Timestamps are readings of an abstract clock.
*/
module RecordStore {
  import opened Wrappers
  import opened JsonValue
  import SqlLike
  import TagJson

  /** One entry of the `comments` list: `{'comment': text, 'timestamp': ...}`. */
  datatype Comment = Comment(text: string, timestamp: nat)

  /** One row of `transients` (the internal autoincrement `id` column is not observable). */
  datatype Record = Record(
    objectId: string,
    properties: Json,
    tags: seq<string>,
    comments: seq<Comment>,
    astronote: bool,
    link: string,
    isFollowup: bool,
    isNew: bool,
    isRemoved: bool,
    isUpdated: bool,
    createdAt: nat,
    updatedAt: nat)

  /** The table, keyed by the UNIQUE `objectId` column. */
  type Store = map<string, Record>

  /** The dictionary given to `add_or_update_transient`; absent optional keys are `None`. */
  datatype Incoming = Incoming(
    objectId: string,
    properties: Json,
    tags: Option<seq<string>>,
    comments: Option<seq<Comment>>,
    link: Option<string>)

  /** The three strings `add_or_update_transient` returns. */
  datatype Outcome = Inserted | Updated | NoChange

  /** Each row sits under its own `objectId` and was not changed before it was created. */
  ghost predicate WellFormed(s: Store) {
    forall k :: k in s ==> s[k].objectId == k && s[k].createdAt <= s[k].updatedAt
  }

  /** No row carries a timestamp later than `now`. */
  ghost predicate NotAfter(s: Store, now: nat) {
    forall k :: k in s ==> s[k].updatedAt <= now
  }

  /** The state right after the table is dropped and recreated (`initialize=True`). */
  function Initialize(): (s: Store)
    ensures forall k :: k !in s
  {
    map[]
  }

  /** The row an INSERT writes: given columns from `inc`, the rest from the column defaults. */
  function NewRecord(inc: Incoming, now: nat): Record {
    Record(
      objectId := inc.objectId,
      properties := inc.properties,
      tags := inc.tags.GetOr([]),
      comments := inc.comments.GetOr([]),
      astronote := false,
      link := inc.link.GetOr(""),
      isFollowup := false,
      isNew := true,
      isRemoved := false,
      isUpdated := false,
      createdAt := now,
      updatedAt := now)
  }

  /** The row the UPDATE of a changed record writes. */
  function Revise(r: Record, inc: Incoming, now: nat): Record {
    r.(properties := inc.properties,
       tags := inc.tags.GetOr([]),
       link := inc.link.GetOr(""),
       isUpdated := true,
       updatedAt := now)
  }

  /** What an inserted row must look like, field by field. */
  ghost predicate FreshRow(r: Record, inc: Incoming, now: nat) {
    && r.objectId == inc.objectId
    && r.properties == inc.properties
    && (inc.tags.None? ==> r.tags == []) && (inc.tags.Some? ==> r.tags == inc.tags.value)
    && (inc.comments.None? ==> r.comments == []) && (inc.comments.Some? ==> r.comments == inc.comments.value)
    && (inc.link.None? ==> r.link == "") && (inc.link.Some? ==> r.link == inc.link.value)
    && r.createdAt == now && r.updatedAt == now
    && !r.astronote && !r.isFollowup && r.isNew && !r.isRemoved && !r.isUpdated
  }

  /** What an updated row must look like: the written columns, and everything else as before. */
  ghost predicate RevisedRow(before: Record, after: Record, inc: Incoming, now: nat) {
    && after.properties == inc.properties
    && (inc.tags.None? ==> after.tags == []) && (inc.tags.Some? ==> after.tags == inc.tags.value)
    && (inc.link.None? ==> after.link == "") && (inc.link.Some? ==> after.link == inc.link.value)
    && after.isUpdated && after.updatedAt == now
    && after.objectId == before.objectId
    && after.comments == before.comments
    && after.createdAt == before.createdAt
    && after.astronote == before.astronote
    && after.isFollowup == before.isFollowup
    && after.isNew == before.isNew
    && after.isRemoved == before.isRemoved
  }

  /**
    `add_or_update_transient`: insert an unknown `objectId`, leave a known one
    whose stored properties equal the incoming ones alone, and otherwise
    overwrite properties, tags and link and flag the row as updated.
  */
  function Upsert(s: Store, inc: Incoming, now: nat): (r: (Outcome, Store))
    ensures r.0 == Inserted <==> inc.objectId !in s
    ensures r.0 == NoChange <==> inc.objectId in s && s[inc.objectId].properties == inc.properties
    ensures r.1.Keys == s.Keys + {inc.objectId}
    ensures forall k :: k in s && k != inc.objectId ==> r.1[k] == s[k]
    ensures r.0 == Inserted ==> FreshRow(r.1[inc.objectId], inc, now)
    ensures r.0 == Updated ==> RevisedRow(s[inc.objectId], r.1[inc.objectId], inc, now)
    ensures r.0 == NoChange ==> r.1 == s
    ensures WellFormed(s) && NotAfter(s, now) ==> WellFormed(r.1) && NotAfter(r.1, now)
  {
    var id := inc.objectId;
    if id in s then
      if s[id].properties != inc.properties then (Updated, s[id := Revise(s[id], inc, now)])
      else (NoChange, s)
    else (Inserted, s[id := NewRecord(inc, now)])
  }

  /** `mark_as_removed`: an UPDATE whose WHERE clause matches no row when `id` is absent. */
  function MarkRemoved(s: Store, id: string, now: nat): (r: Store)
    ensures r.Keys == s.Keys
    ensures forall k :: k in s && k != id ==> r[k] == s[k]
    ensures id !in s ==> r == s
    ensures id in s ==> r[id].isRemoved && r[id].updatedAt == now
    ensures id in s ==> r[id].(isRemoved := s[id].isRemoved, updatedAt := s[id].updatedAt) == s[id]
    ensures WellFormed(s) && NotAfter(s, now) ==> WellFormed(r) && NotAfter(r, now)
  {
    if id in s then s[id := s[id].(isRemoved := true, updatedAt := now)] else s
  }

  /** `add_comment`: append `{text, now}` to the row's comments; report whether the row exists. */
  function AddComment(s: Store, id: string, text: string, now: nat): (r: (bool, Store))
    ensures r.0 <==> id in s
    ensures !r.0 ==> r.1 == s
    ensures r.1.Keys == s.Keys
    ensures forall k :: k in s && k != id ==> r.1[k] == s[k]
    ensures r.0 ==> |r.1[id].comments| == |s[id].comments| + 1
    ensures r.0 ==> r.1[id].comments[..|s[id].comments|] == s[id].comments
    ensures r.0 ==> r.1[id].comments[|s[id].comments|] == Comment(text, now)
    ensures r.0 ==> r.1[id].updatedAt == now
    ensures r.0 ==> r.1[id].(comments := s[id].comments, updatedAt := s[id].updatedAt) == s[id]
    ensures WellFormed(s) && NotAfter(s, now) ==> WellFormed(r.1) && NotAfter(r.1, now)
  {
    if id in s then
      var row := s[id];
      (true, s[id := row.(comments := row.comments + [Comment(text, now)], updatedAt := now)])
    else (false, s)
  }

  /** `search_by_id`: the row under `id`, or nothing. */
  function SearchById(s: Store, id: string): (r: Option<Record>)
    ensures r.Some? <==> id in s
    ensures r.Some? ==> r.value == s[id]
    ensures WellFormed(s) && r.Some? ==> r.value.objectId == id
  {
    if id in s then Some(s[id]) else None
  }

  /** `search_by_tag`: rows whose stored tag text matches `LIKE '%' || tag || '%'`. */
  function SearchByTag(s: Store, tag: string): (r: set<Record>)
    ensures r <= s.Values
  {
    set x | x in s.Values && SqlLike.Like(TagJson.SerializeTags(x.tags), SqlLike.Contains(tag))
  }

  /** `search_by_astronote`: rows whose annotation status is `hasAstronote`. */
  function SearchByAstronote(s: Store, hasAstronote: bool): (r: set<Record>)
    ensures forall x :: x in r <==> x in s.Values && x.astronote == hasAstronote
  {
    set x | x in s.Values && x.astronote == hasAstronote
  }

  /** `search_updates`: rows flagged as updated. */
  function SearchUpdates(s: Store): (r: set<Record>)
    ensures forall x :: x in r <==> x in s.Values && x.isUpdated
  {
    set x | x in s.Values && x.isUpdated
  }
}
