/** Records and batches as they travel from the source to the sinks (src/event.rs). */
module Events {
  import opened Wrappers

  type Byte = x: int | 0 <= x < 256

  /** A Unicode scalar value, which is what a Rust `char` holds. */
  type Scalar = x: int | 0 <= x < 0xD800 || 0xE000 <= x < 0x11_0000

  type Text = seq<Scalar>

  datatype TopicPartition = TopicPartition(topic: Text, partition: int)

  datatype Event = Event(
    key: Option<seq<Byte>>,
    payload: seq<Byte>,
    timestampMs: Option<int>,
    tp: TopicPartition,
    offset: int)

  type Batch = seq<Event>

  /** The struct part of an event's footprint; no proof depends on its value. */
  const STRUCT_BYTES: nat := 128

  function EstimatedSize(e: Event): nat {
    STRUCT_BYTES + (if e.key.Some? then |e.key.value| else 0) + |e.payload|
  }

  /** The byte count `EventBatch::new` computes once for the batch. */
  function BatchBytes(events: Batch): nat {
    if events == [] then 0
    else BatchBytes(events[..|events| - 1]) + EstimatedSize(events[|events| - 1])
  }

  /** All keys of the batch, one after the other. */
  function Keys(events: Batch): seq<Byte> {
    if events == [] then []
    else
      var key := events[|events| - 1].key;
      Keys(events[..|events| - 1]) + if key.Some? then key.value else []
  }

  function Payloads(events: Batch): seq<Byte> {
    if events == [] then [] else Payloads(events[..|events| - 1]) + events[|events| - 1].payload
  }

  /** A batch weighs its structs, its keys and its payloads. */
  lemma {:induction false} BatchBytesIs(events: Batch)
    ensures BatchBytes(events) == |events| * STRUCT_BYTES + |Keys(events)| + |Payloads(events)|
  {
    if events == [] {
    } else {
      var front := events[..|events| - 1];
      BatchBytesIs(front);
      assert |events| * STRUCT_BYTES == |front| * STRUCT_BYTES + STRUCT_BYTES;
    }
  }

  lemma {:induction false} BatchBytesConcat(a: Batch, b: Batch)
    ensures BatchBytes(a + b) == BatchBytes(a) + BatchBytes(b)
  {
    if b == [] {
      assert a + b == a;
    } else {
      assert (a + b)[..|a + b| - 1] == a + b[..|b| - 1];
      BatchBytesConcat(a, b[..|b| - 1]);
    }
  }
}
