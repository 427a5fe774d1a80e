/** `BatchBuffer`: an arena that hands out views into shared chunks (src/event.rs). */
module Arena {
  import opened Events

  /**
   * The cost side of the arena: chunks allocated, capacity of the current one, bytes used in
   * it, and bytes copied so far.
   */
  datatype Ledger = Ledger(chunk: nat, allocations: nat, capacity: nat, used: nat, copied: nat)

  function WithChunk(chunk: nat): Ledger {
    Ledger(if chunk < 1 then 1 else chunk, 0, 0, 0, 0)
  }

  function Larger(a: nat, b: nat): (r: nat)
    ensures r >= a && r >= b && (r == a || r == b)
  {
    if a < b then b else a
  }

  /** What copying `n` bytes costs: nothing for an empty slice, a new chunk if the rest is too small. */
  function Copy(l: Ledger, n: nat): Ledger
    requires l.used <= l.capacity
  {
    if n == 0 then l
    else if l.capacity - l.used < n then
      Ledger(l.chunk, l.allocations + 1, Larger(l.chunk, n), n, l.copied + n)
    else l.(used := l.used + n, copied := l.copied + n)
  }

  /**
   * Two consecutive chunks together always hold more than one chunk's worth. For an odd number
   * of chunks the current one has no partner yet, so its bytes are left out of the account.
   */
  ghost predicate Amortised(l: Ledger) {
    && l.chunk >= 1 && l.used <= l.copied && l.used <= l.capacity
    && (l.allocations > 0 ==> l.capacity >= l.chunk)
    && (l.allocations == 0 ==> l.capacity == 0 && l.copied == 0)
    && var paid := if l.allocations % 2 == 0 then l.copied else l.copied - l.used;
       && paid >= l.allocations / 2 * l.chunk
       && (l.allocations >= 2 ==> paid > l.allocations / 2 * l.chunk)
  }

  lemma CopyAmortised(l: Ledger, n: nat)
    requires Amortised(l)
    ensures Amortised(Copy(l, n))
  {
    var half := l.allocations / 2;
    assert (half + 1) * l.chunk == half * l.chunk + l.chunk;
    if n > 0 && l.capacity - l.used < n {
      if l.allocations % 2 == 0 {
        assert (l.allocations + 1) / 2 == half;
      } else {
        assert (l.allocations + 1) / 2 == half + 1;
      }
    }
  }

  function CopyAll(chunk: nat, sizes: seq<nat>): (l: Ledger)
    ensures l.used <= l.capacity
  {
    if sizes == [] then WithChunk(chunk)
    else Copy(CopyAll(chunk, sizes[..|sizes| - 1]), sizes[|sizes| - 1])
  }

  function Sum(sizes: seq<nat>): nat {
    if sizes == [] then 0 else Sum(sizes[..|sizes| - 1]) + sizes[|sizes| - 1]
  }

  /**
   * For every sequence of copies: `n` chunks of the requested size, n at least 2, are allocated only
   * after more than (n / 2) chunks' worth of bytes has been copied.
   */
  lemma AllocationsAreAmortised(chunk: nat, sizes: seq<nat>)
    ensures var l := CopyAll(chunk, sizes);
      && Amortised(l) && l.copied == Sum(sizes)
      && (l.allocations >= 2 ==> l.allocations / 2 * chunk < Sum(sizes))
  {
    var l := CopyAll(chunk, sizes);
    CopiesKeepAccount(chunk, sizes);
    if chunk == 0 {
      assert l.allocations / 2 * chunk == 0;
      assert l.allocations / 2 * l.chunk >= 0;
    }
  }

  lemma {:induction false} CopiesKeepAccount(chunk: nat, sizes: seq<nat>)
    ensures var l := CopyAll(chunk, sizes);
      Amortised(l) && l.copied == Sum(sizes) && l.chunk == if chunk == 0 then 1 else chunk
  {
    if sizes == [] {
    } else {
      var front, last := sizes[..|sizes| - 1], sizes[|sizes| - 1];
      CopiesKeepAccount(chunk, front);
      CopyAmortised(CopyAll(chunk, front), last);
    }
  }

  /** A zero-copy view: `length` bytes of `memory` from `start`; an empty view has no memory. */
  datatype View = Empty | Slice(memory: array<Byte>, start: nat, length: nat) {

    ghost predicate InBounds() {
      Slice? ==> length > 0 && start + length <= memory.Length
    }

    ghost function Bytes(): seq<Byte>
      requires InBounds()
      reads if Slice? then {memory} else {}
    {
      if Empty? then [] else memory[start..start + length]
    }
  }

  /** The two views share no byte. */
  ghost predicate Disjoint(a: View, b: View) {
    a.Slice? && b.Slice? && a.memory == b.memory ==> a.start + a.length <= b.start || b.start + b.length <= a.start
  }

  class BatchBuffer {
    const chunk: nat
    var buffer: array<Byte>
    var used: nat
    ghost var allocations: nat
    ghost var copied: nat
    ghost var chunks: set<array<Byte>>
    ghost var views: seq<View>
    ghost var contents: seq<seq<Byte>>

    /** Every view lies in a chunk, and within the current chunk below the write position. */
    ghost predicate Placed()
      reads this
    {
      && buffer in chunks && used <= buffer.Length
      && forall i :: 0 <= i < |views| && views[i].Slice? ==>
           views[i].memory in chunks
           && (views[i].memory == buffer ==> views[i].start + views[i].length <= used)
    }

    /** Every view still reads the bytes it was made from. */
    ghost predicate Readable()
      reads this, chunks
      requires Placed()
    {
      && |views| == |contents|
      && forall i :: 0 <= i < |views| ==> views[i].InBounds() && views[i].Bytes() == contents[i]
    }

    ghost predicate Valid()
      reads this, chunks
    {
      && chunk >= 1 && Placed() && Readable()
      && forall i, j :: 0 <= i < j < |views| ==> Disjoint(views[i], views[j])
    }

    ghost function Cost(): Ledger
      reads this, buffer
    {
      Ledger(chunk, allocations, buffer.Length, used, copied)
    }

    constructor (chunk: nat)
      ensures Valid() && fresh(chunks) && views == [] && contents == []
      ensures this.chunk == if chunk == 0 then 1 else chunk
      ensures Cost() == WithChunk(chunk)
    {
      this.chunk := if chunk < 1 then 1 else chunk;
      buffer := new Byte[0];
      used, allocations, copied := 0, 0, 0;
      views, contents := [], [];
      new;
      chunks := {buffer};
    }

    /** A fresh chunk when the current one has less than `n` bytes left. */
    method Reserve(n: nat)
      requires Valid() && n > 0
      modifies this
      ensures Valid() && fresh(chunks - old(chunks)) && old(chunks) <= chunks
      ensures views == old(views) && contents == old(contents) && copied == old(copied)
      ensures used + n <= buffer.Length
      ensures if old(buffer.Length - used) < n
        then used == 0 && buffer.Length == Larger(chunk, n) && allocations == old(allocations) + 1
        else used == old(used) && buffer == old(buffer) && allocations == old(allocations)
    {
      if buffer.Length - used < n {
        buffer := new Byte[Larger(chunk, n)];
        chunks := chunks + {buffer};
        used, allocations := 0, allocations + 1;
      }
    }

    static method Fill(memory: array<Byte>, start: nat, source: seq<Byte>)
      requires start + |source| <= memory.Length
      modifies memory
      ensures memory[start..start + |source|] == source
      ensures forall i :: 0 <= i < start ==> memory[i] == old(memory[i])
    {
      for i := 0 to |source|
        invariant memory[start..start + i] == source[..i]
        invariant forall j :: 0 <= j < start ==> memory[j] == old(memory[j])
      {
        memory[start + i] := source[i];
      }
    }

    /** Writes above every view of the current chunk, so no view changes. */
    method Write(source: seq<Byte>)
      requires Valid() && used + |source| <= buffer.Length
      modifies buffer
      ensures Valid() && buffer[used..used + |source|] == source
    {
      Fill(buffer, used, source);
      forall i | 0 <= i < |views| ensures views[i].InBounds() && views[i].Bytes() == contents[i] {
        assert old(views[i].Bytes()) == contents[i];
        assert views[i].Slice? ==> views[i].Bytes() == old(views[i].Bytes());
      }
    }

    /** The written bytes become a view and the write position moves past them. */
    method Split(source: seq<Byte>) returns (view: View)
      requires Valid() && source != []
      requires used + |source| <= buffer.Length && buffer[used..used + |source|] == source
      modifies this
      ensures Valid() && chunks == old(chunks) && buffer == old(buffer)
      ensures views == old(views) + [view] && contents == old(contents) + [source]
      ensures view.InBounds() && view.Bytes() == source
      ensures used == old(used) + |source| && copied == old(copied) + |source| && allocations == old(allocations)
    {
      view := Slice(buffer, used, |source|);
      used, copied := used + |source|, copied + |source|;
      views, contents := views + [view], contents + [source];
    }

    /**
     * Copies `source` in and hands out a view of it. Every view handed out before still reads
     * its own bytes, and no two views overlap.
     */
    method CopyIn(source: seq<Byte>) returns (view: View)
      requires Valid()
      modifies this, chunks
      ensures Valid() && fresh(chunks - old(chunks))
      ensures views == old(views) + [view] && contents == old(contents) + [source]
      ensures view.InBounds() && view.Bytes() == source
      ensures Cost() == Copy(old(Cost()), |source|)
    {
      if source == [] {
        view := Empty;
        views, contents := views + [view], contents + [source];
        return;
      }
      Reserve(|source|);
      Write(source);
      view := Split(source);
    }
  }
}
