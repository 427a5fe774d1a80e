/** `commit_contiguous`: only the contiguous prefix of acknowledged batches is committed (src/source/kafka.rs). */
module Commit {
  import opened Wrappers
  import opened Offsets

  datatype Completion = Completion(sequence: nat, offsets: seq<Entry>, events: nat, bytes: nat)

  /**
   * The source's commit bookkeeping. `commits` is the history of commit requests the
   * consumer accepted, oldest first.
   */
  datatype Ledger = Ledger(completed: map<nat, Completion>, next: nat, commits: seq<Completion>)

  const EMPTY := Ledger(map[], 0, [])

  datatype Drained = Drained(ledger: Ledger, ok: bool)

  /** The ledger after committing the next batch. */
  function Advance(l: Ledger): Ledger
    requires l.next in l.completed
  {
    Ledger(l.completed - {l.next}, l.next + 1, l.commits + [l.completed[l.next]])
  }

  /**
   * Commits from `next` upwards for as long as the next batch is acknowledged. A commit
   * request the consumer refuses ends the run after the entry was taken out of the map.
   */
  function Drain(l: Ledger, refused: set<nat>): Drained
    decreases |l.completed|
  {
    if l.next !in l.completed then Drained(l, true)
    else
      var rest := l.completed - {l.next};
      assert rest.Keys == l.completed.Keys - {l.next};
      if l.next in refused then Drained(l.(completed := rest), false)
      else Drain(Advance(l), refused)
  }

  function Accept(l: Ledger, c: Completion, refused: set<nat>): Drained {
    Drain(l.(completed := l.completed[c.sequence := c]), refused)
  }

  function EventSum(cs: seq<Completion>): nat {
    if cs == [] then 0 else EventSum(cs[..|cs| - 1]) + cs[|cs| - 1].events
  }

  function ByteSum(cs: seq<Completion>): nat {
    if cs == [] then 0 else ByteSum(cs[..|cs| - 1]) + cs[|cs| - 1].bytes
  }

  lemma SumsPush(cs: seq<Completion>, c: Completion)
    ensures EventSum(cs + [c]) == EventSum(cs) + c.events
    ensures ByteSum(cs + [c]) == ByteSum(cs) + c.bytes
  {
    assert (cs + [c])[..|cs|] == cs;
  }

  /**
   * `l` accounts for exactly the completions in `all`: everything below `next` has been
   * committed in sequence order, everything else waits in the map.
   */
  ghost predicate Accounts(l: Ledger, all: map<nat, Completion>) {
    && |l.commits| == l.next
    && (forall i :: 0 <= i < l.next ==> i in all && l.commits[i] == all[i])
    && (forall i :: i in l.completed <==> i in all && l.next <= i)
    && (forall i :: i in l.completed ==> l.completed[i] == all[i])
  }

  /** `Accounts` with nothing left to commit: `next` is the least sequence missing from `all`. */
  ghost predicate Settled(l: Ledger, all: map<nat, Completion>) {
    Accounts(l, all) && l.next !in all
  }

  lemma AdvanceAccounts(l: Ledger, all: map<nat, Completion>)
    requires Accounts(l, all) && l.next in l.completed
    ensures Accounts(Advance(l), all) && |Advance(l).completed| < |l.completed|
  {
    assert Advance(l).completed.Keys == l.completed.Keys - {l.next};
  }

  /** Draining only adds commits, each with the completion of its sequence, and none that was refused. */
  lemma {:induction false} DrainCommits(l: Ledger, all: map<nat, Completion>, refused: set<nat>)
    requires Accounts(l, all)
    ensures var d := Drain(l, refused);
      && l.commits <= d.ledger.commits
      && (forall i :: l.next <= i < d.ledger.next ==> i !in refused)
      && |d.ledger.commits| == d.ledger.next
      && (forall i :: 0 <= i < d.ledger.next ==> i in all && d.ledger.commits[i] == all[i])
    decreases |l.completed|
  {
    if l.next in l.completed && l.next !in refused {
      AdvanceAccounts(l, all);
      DrainCommits(Advance(l), all, refused);
    }
  }

  /** Draining ends with nothing left to commit, or at a batch whose request is refused. */
  lemma {:induction false} DrainStops(l: Ledger, all: map<nat, Completion>, refused: set<nat>)
    requires Accounts(l, all)
    ensures var d := Drain(l, refused);
      if d.ok then Settled(d.ledger, all) else d.ledger.next in all && d.ledger.next in refused
    decreases |l.completed|
  {
    if l.next in l.completed && l.next !in refused {
      AdvanceAccounts(l, all);
      DrainStops(Advance(l), all, refused);
    }
  }

  /** Draining keeps the account, extends the commits, and stops only at a gap or a refusal. */
  lemma DrainAccounts(l: Ledger, all: map<nat, Completion>, refused: set<nat>)
    requires Accounts(l, all)
    ensures var d := Drain(l, refused);
      && l.commits <= d.ledger.commits
      && (d.ok ==> Settled(d.ledger, all))
      && (!d.ok ==> d.ledger.next in all && d.ledger.next in refused)
      && (forall i :: l.next <= i < d.ledger.next ==> i !in refused)
      && |d.ledger.commits| == d.ledger.next
      && (forall i :: 0 <= i < d.ledger.next ==> i in all && d.ledger.commits[i] == all[i])
  {
    DrainCommits(l, all, refused);
    DrainStops(l, all, refused);
  }

  /** One new completion, whichever it is, takes a settled ledger to a settled ledger. */
  lemma AcceptSettles(l: Ledger, all: map<nat, Completion>, c: Completion)
    requires Settled(l, all) && c.sequence !in all
    ensures var d := Accept(l, c, {});
      d.ok && Settled(d.ledger, all[c.sequence := c]) && l.commits <= d.ledger.commits
  {
    DrainAccounts(l.(completed := l.completed[c.sequence := c]), all[c.sequence := c], {});
  }

  /** The ledger after processing completions in the given arrival order. */
  function Process(cs: seq<Completion>): Ledger {
    if cs == [] then EMPTY else Accept(Process(cs[..|cs| - 1]), cs[|cs| - 1], {}).ledger
  }

  ghost predicate DistinctSequences(cs: seq<Completion>) {
    forall i, j :: 0 <= i < j < |cs| ==> cs[i].sequence != cs[j].sequence
  }

  function BySequence(cs: seq<Completion>): map<nat, Completion> {
    if cs == [] then map[]
    else BySequence(cs[..|cs| - 1])[cs[|cs| - 1].sequence := cs[|cs| - 1]]
  }

  lemma {:induction false} BySequenceIs(cs: seq<Completion>)
    requires DistinctSequences(cs)
    ensures forall i :: i in BySequence(cs) <==> exists c :: c in cs && c.sequence == i
    ensures forall c :: c in cs ==> c.sequence in BySequence(cs) && BySequence(cs)[c.sequence] == c
  {
    if cs == [] {
    } else {
      var front, last := cs[..|cs| - 1], cs[|cs| - 1];
      assert cs == front + [last];
      BySequenceIs(front);
      forall c | c in front ensures c.sequence != last.sequence {
        var i :| 0 <= i < |front| && front[i] == c;
        assert cs[i].sequence != cs[|cs| - 1].sequence;
      }
      assert forall c :: c in cs <==> c in front || c == last;
    }
  }

  /**
   * For every arrival order, `next` is the mex of the sequences seen, exactly the sequences
   * above it wait in the map, and the commits are 0, 1, 2, ... in that order.
   */
  lemma {:induction false} CommitsTheMex(cs: seq<Completion>)
    requires DistinctSequences(cs)
    ensures Settled(Process(cs), BySequence(cs))
  {
    if cs == [] {
    } else {
      var front, last := cs[..|cs| - 1], cs[|cs| - 1];
      CommitsTheMex(front);
      BySequenceIs(front);
      forall c | c in front ensures c.sequence != last.sequence {
        var i :| 0 <= i < |front| && front[i] == c;
        assert cs[i].sequence != cs[|cs| - 1].sequence;
      }
      AcceptSettles(Process(front), BySequence(front), last);
    }
  }

  lemma SettledIsUnique(a: Ledger, b: Ledger, all: map<nat, Completion>)
    requires Settled(a, all) && Settled(b, all)
    ensures a == b
  {
    assert a.next == b.next;
    assert a.commits == b.commits;
    assert a.completed.Keys == b.completed.Keys;
    assert a.completed == b.completed;
  }

  lemma BySequenceIncludes(cs: seq<Completion>, reordered: seq<Completion>)
    requires DistinctSequences(cs) && DistinctSequences(reordered)
    requires forall c :: c in cs ==> c in reordered
    ensures forall i :: i in BySequence(cs) ==>
      i in BySequence(reordered) && BySequence(cs)[i] == BySequence(reordered)[i]
  {
    BySequenceIs(cs);
    BySequenceIs(reordered);
    forall i | i in BySequence(cs)
      ensures i in BySequence(reordered) && BySequence(cs)[i] == BySequence(reordered)[i]
    {
      var c :| c in cs && c.sequence == i;
      assert c in reordered;
    }
  }

  /** Acknowledgement order is irrelevant: the same completions always leave the same ledger. */
  lemma OrderInsensitive(cs: seq<Completion>, reordered: seq<Completion>)
    requires DistinctSequences(cs) && DistinctSequences(reordered)
    requires multiset(cs) == multiset(reordered)
    ensures Process(cs) == Process(reordered)
  {
    assert forall c :: c in cs <==> c in multiset(cs);
    assert forall c :: c in reordered <==> c in multiset(reordered);
    BySequenceIncludes(cs, reordered);
    BySequenceIncludes(reordered, cs);
    assert BySequence(cs) == BySequence(reordered);
    CommitsTheMex(cs);
    CommitsTheMex(reordered);
    SettledIsUnique(Process(cs), Process(reordered), BySequence(cs));
  }

  /** The committing half of the source: the map it drains and the requests it makes. */
  class Committer {
    var completed: map<nat, Completion>
    var next: nat
    var commits: seq<Completion>

    constructor ()
      ensures View() == EMPTY
    {
      completed, next, commits := map[], 0, [];
    }

    ghost function View(): Ledger
      reads this
    {
      Ledger(completed, next, commits)
    }

    /** Returns the events and bytes committed by this call, or an error when a request is refused. */
    method CommitContiguous(completion: Completion, refused: set<nat>)
      returns (r: Result<(nat, nat), ()>)
      modifies this
      ensures Drained(View(), r.Ok?) == Accept(old(View()), completion, refused)
      ensures r.Ok? ==> EventSum(commits) == EventSum(old(commits)) + r.value.0
      ensures r.Ok? ==> ByteSum(commits) == ByteSum(old(commits)) + r.value.1
    {
      completed := completed[completion.sequence := completion];
      var events: nat, bytes: nat := 0, 0;
      while next in completed
        invariant Drain(View(), refused) == Accept(old(View()), completion, refused)
        invariant EventSum(commits) == EventSum(old(commits)) + events
        invariant ByteSum(commits) == ByteSum(old(commits)) + bytes
        decreases |completed|
      {
        var c := completed[next];
        assert (completed - {next}).Keys == completed.Keys - {next};
        completed := completed - {next};
        if next in refused {
          return Err(());
        }
        SumsPush(commits, c);
        commits := commits + [c];
        events := events + c.events;
        bytes := bytes + c.bytes;
        next := next + 1;
      }
      r := Ok((events, bytes));
    }
  }
}
