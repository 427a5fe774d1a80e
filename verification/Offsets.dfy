/** `offsets_for`: the offsets a batch commits once it is acknowledged (src/source/kafka.rs). */
module Offsets {
  import opened Events

  /** One row of the topic-partition list: the next offset to consume. */
  datatype Entry = Entry(tp: TopicPartition, offset: int)

  /** The position of the entry for `tp`, or `|entries|` when there is none. */
  function Find(entries: seq<Entry>, tp: TopicPartition): (i: nat)
    ensures i <= |entries|
    ensures i < |entries| ==> entries[i].tp == tp
    ensures forall j :: 0 <= j < i ==> entries[j].tp != tp
  {
    if entries == [] then 0
    else if entries[0].tp == tp then 0
    else 1 + Find(entries[1..], tp)
  }

  function Max(a: int, b: int): int { if a < b then b else a }

  /** One event's effect on the list: raise its partition's entry, or append one. */
  function Record(entries: seq<Entry>, e: Event): seq<Entry> {
    var i := Find(entries, e.tp);
    if i < |entries| then entries[i := Entry(e.tp, Max(entries[i].offset, e.offset + 1))]
    else entries + [Entry(e.tp, e.offset + 1)]
  }

  function NextOffsets(events: Batch): seq<Entry> {
    if events == [] then []
    else Record(NextOffsets(events[..|events| - 1]), events[|events| - 1])
  }

  /** `offset` is one above the highest offset of `tp` among the events. */
  ghost predicate IsHighest(events: Batch, tp: TopicPartition, offset: int) {
    && (exists e :: e in events && e.tp == tp && e.offset + 1 == offset)
    && (forall e :: e in events && e.tp == tp ==> e.offset + 1 <= offset)
  }

  ghost predicate DistinctPartitions(entries: seq<Entry>) {
    forall i, j :: 0 <= i < j < |entries| ==> entries[i].tp != entries[j].tp
  }

  ghost predicate Mentions(entries: seq<Entry>, tp: TopicPartition) {
    exists i :: 0 <= i < |entries| && entries[i].tp == tp
  }

  /** What the list promises: one entry per partition present, none other, each the highest plus one. */
  ghost predicate Describes(events: Batch, entries: seq<Entry>) {
    && DistinctPartitions(entries)
    && (forall i :: 0 <= i < |entries| ==> IsHighest(events, entries[i].tp, entries[i].offset))
    && (forall e :: e in events ==> Mentions(entries, e.tp))
  }

  lemma RecordDescribes(events: Batch, entries: seq<Entry>, e: Event)
    requires Describes(events, entries)
    ensures Describes(events + [e], Record(entries, e))
  {
    var more, r, k := events + [e], Record(entries, e), Find(entries, e.tp);
    forall i | 0 <= i < |r| ensures IsHighest(more, r[i].tp, r[i].offset) {
      if i < |entries| {
        assert IsHighest(events, entries[i].tp, entries[i].offset);
        HighestRaised(events, entries[i], e);
      } else {
        forall x | x in events ensures x.tp != e.tp {
          assert Mentions(entries, x.tp);
        }
        HighestAlone(events, e);
      }
    }
    RecordMentions(events, entries, e);
  }

  /** One more event raises the entry of its own partition and leaves the others. */
  lemma HighestRaised(events: Batch, entry: Entry, e: Event)
    requires IsHighest(events, entry.tp, entry.offset)
    ensures IsHighest(events + [e], entry.tp,
      if entry.tp == e.tp then Max(entry.offset, e.offset + 1) else entry.offset)
  {
    var w :| w in events && w.tp == entry.tp && w.offset + 1 == entry.offset;
    assert w in events + [e] && e in events + [e];
  }

  lemma HighestAlone(events: Batch, e: Event)
    requires forall x :: x in events ==> x.tp != e.tp
    ensures IsHighest(events + [e], e.tp, e.offset + 1)
  {
    assert e in events + [e];
  }

  lemma RecordMentions(events: Batch, entries: seq<Entry>, e: Event)
    requires forall x :: x in events ==> Mentions(entries, x.tp)
    ensures forall x :: x in events + [e] ==> Mentions(Record(entries, e), x.tp)
  {
    var r := Record(entries, e);
    assert r[Find(entries, e.tp)].tp == e.tp;
    forall x | x in events ensures Mentions(r, x.tp) {
      assert Mentions(entries, x.tp);
      var i :| 0 <= i < |entries| && entries[i].tp == x.tp;
      assert r[i].tp == x.tp;
    }
  }

  /** The fold over the events yields the described list, for every batch. */
  lemma {:induction false} NextOffsetsDescribes(events: Batch)
    ensures Describes(events, NextOffsets(events))
  {
    if events == [] {
    } else {
      var front, last := events[..|events| - 1], events[|events| - 1];
      NextOffsetsDescribes(front);
      RecordDescribes(front, NextOffsets(front), last);
      assert front + [last] == events;
    }
  }

  lemma SameEntries(events: Batch, a: seq<Entry>, reordered: Batch, b: seq<Entry>, x: Entry)
    requires Describes(events, a) && Describes(reordered, b)
    requires forall e :: e in events <==> e in reordered
    requires x in a
    ensures x in b
  {
    var i :| 0 <= i < |a| && a[i] == x;
    assert IsHighest(events, a[i].tp, a[i].offset);
    var w :| w in events && w.tp == x.tp && w.offset + 1 == x.offset;
    assert Mentions(b, w.tp);
    var j :| 0 <= j < |b| && b[j].tp == x.tp;
    assert IsHighest(reordered, b[j].tp, b[j].offset);
  }

  lemma {:induction false} DistinctMultiplicity(entries: seq<Entry>, x: Entry)
    requires DistinctPartitions(entries)
    ensures multiset(entries)[x] == if x in entries then 1 else 0
  {
    if entries == [] {
    } else {
      var front, last := entries[..|entries| - 1], entries[|entries| - 1];
      assert entries == front + [last];
      DistinctMultiplicity(front, x);
    }
  }

  lemma SameMultiplicity(events: Batch, a: seq<Entry>, reordered: Batch, b: seq<Entry>, x: Entry)
    requires Describes(events, a) && Describes(reordered, b)
    requires forall e :: e in events <==> e in reordered
    ensures multiset(a)[x] == multiset(b)[x]
  {
    DistinctMultiplicity(a, x);
    DistinctMultiplicity(b, x);
    if x in a { SameEntries(events, a, reordered, b, x); }
    if x in b { SameEntries(reordered, b, events, a, x); }
  }

  /** Reordering a batch changes nothing but the order of its entries. */
  lemma OrderInsensitive(events: Batch, reordered: Batch)
    requires multiset(events) == multiset(reordered)
    ensures multiset(NextOffsets(events)) == multiset(NextOffsets(reordered))
  {
    var a, b := NextOffsets(events), NextOffsets(reordered);
    NextOffsetsDescribes(events);
    NextOffsetsDescribes(reordered);
    assert forall e :: e in events <==> e in multiset(events);
    assert forall e :: e in reordered <==> e in multiset(reordered);
    forall x ensures multiset(a)[x] == multiset(b)[x] {
      SameMultiplicity(events, a, reordered, b, x);
    }
  }

  /** The linear scan over the vector, as `offsets_for` runs it. */
  method OffsetsFor(events: Batch) returns (entries: seq<Entry>)
    ensures entries == NextOffsets(events)
    ensures Describes(events, entries)
  {
    entries := [];
    for n := 0 to |events|
      invariant entries == NextOffsets(events[..n])
    {
      var event := events[n];
      var i := 0;
      while i < |entries| && entries[i].tp != event.tp
        invariant i <= |entries|
        invariant forall j :: 0 <= j < i ==> entries[j].tp != event.tp
      {
        i := i + 1;
      }
      assert i == Find(entries, event.tp);
      if i < |entries| {
        entries := entries[i := Entry(event.tp, Max(entries[i].offset, event.offset + 1))];
      } else {
        entries := entries + [Entry(event.tp, event.offset + 1)];
      }
      assert events[..n + 1][..n] == events[..n];
    }
    assert events[..|events|] == events;
    NextOffsetsDescribes(events);
  }
}
