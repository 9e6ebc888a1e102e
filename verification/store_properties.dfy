/** Properties that relate several `DatabaseManager` operations to each other. */
module StoreProperties {
  import opened Wrappers
  import opened RecordStore
  import SqlLike
  import TagJson

  /** Upserting the same record again changes nothing and reports `no_change`. */
  lemma UpsertIdempotent(s: Store, inc: Incoming, now: nat, later: nat)
    ensures var s1 := Upsert(s, inc, now).1; Upsert(s1, inc, later) == (NoChange, s1)
  {
  }

  /** After an upsert the row is found by id and carries the incoming properties. */
  lemma UpsertThenSearchById(s: Store, inc: Incoming, now: nat)
    ensures var r := SearchById(Upsert(s, inc, now).1, inc.objectId);
      r.Some? && r.value.properties == inc.properties
  {
  }

  /** Only an insert grows the table, and by exactly one row. */
  lemma UpsertSize(s: Store, inc: Incoming, now: nat)
    ensures var (o, s1) := Upsert(s, inc, now);
      |s1| == |s| + (if o == Inserted then 1 else 0)
  {
    var (o, s1) := Upsert(s, inc, now);
    if o == Inserted {
      assert s1.Keys == s.Keys + {inc.objectId};
      assert inc.objectId !in s.Keys;
      assert |s1.Keys| == |s.Keys| + 1;
    } else {
      assert s1.Keys == s.Keys;
      assert |s1.Keys| == |s.Keys|;
    }
  }

  /** An `updated` outcome puts the row on the update list; an insert does not. */
  lemma UpsertAndUpdateList(s: Store, inc: Incoming, now: nat)
    ensures var (o, s1) := Upsert(s, inc, now);
      && (o == Updated ==> s1[inc.objectId] in SearchUpdates(s1))
      && (o == Inserted ==> s1[inc.objectId] !in SearchUpdates(s1))
  {
    var (o, s1) := Upsert(s, inc, now);
    assert s1[inc.objectId] in s1.Values;
  }

  /** Marking twice is the same as marking once at the later time. */
  lemma MarkRemovedTwice(s: Store, id: string, now: nat, later: nat)
    ensures MarkRemoved(MarkRemoved(s, id, now), id, later) == MarkRemoved(s, id, later)
  {
  }

  /** Removal is soft: the row is still found by id, flagged as removed. */
  lemma MarkRemovedThenSearchById(s: Store, id: string, now: nat)
    requires id in s
    ensures var r := SearchById(MarkRemoved(s, id, now), id);
      r.Some? && r.value.isRemoved && r.value.comments == s[id].comments
  {
  }

  /** Two comments in a row are kept in the order they were added. */
  lemma CommentsKeepOrder(s: Store, id: string, a: string, b: string, t1: nat, t2: nat)
    requires id in s
    ensures var s2 := AddComment(AddComment(s, id, a, t1).1, id, b, t2).1;
      s2[id].comments == s[id].comments + [Comment(a, t1), Comment(b, t2)]
  {
    var s1 := AddComment(s, id, a, t1).1;
    var s2 := AddComment(s1, id, b, t2).1;
    assert s1[id].comments == s[id].comments + [Comment(a, t1)];
    assert s2[id].comments == s1[id].comments + [Comment(b, t2)];
  }

  /** A row whose stored tag text contains the argument verbatim is returned by the tag search. */
  lemma SearchByTagFindsVerbatim(s: Store, x: Record, tag: string)
    requires x in s.Values && SqlLike.Infix(TagJson.SerializeTags(x.tags), tag)
    ensures x in SearchByTag(s, tag)
  {
    SqlLike.InfixMatchesContains(TagJson.SerializeTags(x.tags), tag);
  }

  /** Every row holding a plain tag is returned when that tag is searched for. */
  lemma SearchByTagFindsTag(s: Store, x: Record, tag: string)
    requires x in s.Values && tag in x.tags && TagJson.Plain(tag)
    ensures x in SearchByTag(s, tag)
  {
    TagJson.PlainTagSerialized(x.tags, tag);
    SearchByTagFindsVerbatim(s, x, tag);
  }

  /**
    For an argument free of `%` and `_`, the tag search returns exactly the rows
    whose stored tag text contains the argument, ignoring ASCII case.
  */
  lemma SearchByTagIsSubstringSearch(s: Store, tag: string)
    requires SqlLike.NoWildcards(tag)
    ensures forall x :: x in SearchByTag(s, tag) <==>
      x in s.Values && SqlLike.FoldedInfix(TagJson.SerializeTags(x.tags), tag)
  {
    forall x | x in s.Values
      ensures x in SearchByTag(s, tag) <==> SqlLike.FoldedInfix(TagJson.SerializeTags(x.tags), tag)
    {
      SqlLike.ContainsIsFoldedInfix(TagJson.SerializeTags(x.tags), tag);
    }
  }

  /** The search is over text, not tags: `[` is in every stored tag list, so it returns every row. */
  lemma SearchByBracketReturnsAll(s: Store)
    ensures SearchByTag(s, "[") == s.Values
  {
    forall x | x in s.Values ensures x in SearchByTag(s, "[") {
      var text := TagJson.SerializeTags(x.tags);
      assert SqlLike.StartsWith(text[0..], "[");
      SearchByTagFindsVerbatim(s, x, "[");
    }
  }
}
