/** The acknowledgement shared by the branches of one fanned-out batch (src/topology.rs). */
module Acknowledgement {

  /**
   * `AckState`: what the mutex guards. `notify` says whether the one-shot sender is still
   * there, `sent` lists every value sent through it.
   */
  datatype Shared = Shared(remaining: int, delivered: bool, notify: bool, sent: seq<bool>)

  function NewShared(destinations: nat): Shared {
    Shared(destinations, true, true, [])
  }

  /** The critical section of `BranchAck::complete`. */
  function Count(s: Shared, ok: bool): Shared {
    var delivered := s.delivered && ok;
    var remaining := s.remaining - 1;
    if remaining == 0 && s.notify then Shared(remaining, delivered, false, s.sent + [delivered])
    else Shared(remaining, delivered, s.notify, s.sent)
  }

  /** A branch before the flag swap, between the swap and the critical section, and after both. */
  datatype Branch = Open | Claimed(ok: bool) | Counted(ok: bool)

  datatype Fan = Fan(branches: seq<Branch>, shared: Shared)

  function Start(destinations: nat): Fan {
    Fan(seq(destinations, _ => Open), NewShared(destinations))
  }

  /** The two atomic actions of `complete`; `delivered`, `failed` and Drop all begin with the swap. */
  datatype Action = Swap(branch: nat, ok: bool) | Enter(branch: nat)

  predicate Enabled(f: Fan, a: Action) {
    a.branch < |f.branches| && (a.Enter? ==> f.branches[a.branch].Claimed?)
  }

  function Apply(f: Fan, a: Action): Fan
    requires Enabled(f, a)
  {
    match a
    case Swap(k, ok) => if f.branches[k].Open? then f.(branches := f.branches[k := Claimed(ok)]) else f
    case Enter(k) => Fan(f.branches[k := Counted(f.branches[k].ok)], Count(f.shared, f.branches[k].ok))
  }

  function Outstanding(branches: seq<Branch>): nat {
    if branches == [] then 0
    else Outstanding(branches[..|branches| - 1]) + if branches[|branches| - 1].Counted? then 0 else 1
  }

  lemma {:induction false} OutstandingUpdate(branches: seq<Branch>, k: nat, b: Branch)
    requires k < |branches|
    ensures Outstanding(branches[k := b]) ==
      Outstanding(branches) - (if branches[k].Counted? then 0 else 1) + (if b.Counted? then 0 else 1)
  {
    var n := |branches| - 1;
    if k < n {
      OutstandingUpdate(branches[..n], k, b);
      assert branches[k := b][..n] == branches[..n][k := b];
    } else {
      assert branches[k := b][..n] == branches[..n];
    }
  }

  lemma {:induction false} OutstandingZero(branches: seq<Branch>)
    ensures Outstanding(branches) == 0 <==> forall k :: 0 <= k < |branches| ==> branches[k].Counted?
  {
    if branches == [] {
    } else {
      OutstandingZero(branches[..|branches| - 1]);
    }
  }

  lemma {:induction false} OutstandingFresh(n: nat)
    ensures Outstanding(Start(n).branches) == n
  {
    if n == 0 {
    } else {
      OutstandingFresh(n - 1);
      assert Start(n).branches[..n - 1] == Start(n - 1).branches;
    }
  }

  ghost predicate AllCounted(branches: seq<Branch>) {
    forall k :: 0 <= k < |branches| ==> branches[k].Counted?
  }

  ghost predicate NoneRefused(branches: seq<Branch>) {
    forall k :: 0 <= k < |branches| && branches[k].Counted? ==> branches[k].ok
  }

  /** The shared state mirrors the branches, and the verdict goes out with the last of them. */
  ghost predicate Consistent(f: Fan) {
    && f.shared.remaining == Outstanding(f.branches)
    && (f.shared.delivered <==> NoneRefused(f.branches))
    && f.shared.notify == (f.shared.remaining > 0)
    && f.shared.sent == if f.shared.remaining == 0 then [f.shared.delivered] else []
  }

  lemma StartConsistent(n: nat)
    requires n > 0
    ensures Consistent(Start(n))
  {
    OutstandingFresh(n);
  }

  /** Every action keeps the mirror, and the counter never goes below zero. */
  lemma ApplyConsistent(f: Fan, a: Action)
    requires Consistent(f) && Enabled(f, a)
    ensures Consistent(Apply(f, a))
    ensures Apply(f, a).shared.remaining >= 0
  {
    var k := a.branch;
    if a.Enter? {
      var b := Counted(f.branches[k].ok);
      OutstandingUpdate(f.branches, k, b);
      var after := f.branches[k := b];
      if NoneRefused(f.branches) && b.ok {
        assert NoneRefused(after);
      }
      if NoneRefused(after) {
        assert after[k].ok;
        assert forall j :: 0 <= j < |after| && j != k ==> after[j] == f.branches[j];
        assert NoneRefused(f.branches);
      }
    } else if f.branches[k].Open? {
      OutstandingUpdate(f.branches, k, Claimed(a.ok));
      var after := f.branches[k := Claimed(a.ok)];
      assert forall j :: 0 <= j < |after| && j != k ==> after[j] == f.branches[j];
      assert NoneRefused(after) <==> NoneRefused(f.branches) by {
        if NoneRefused(after) {
          forall j | 0 <= j < |after| && f.branches[j].Counted? ensures f.branches[j].ok {
            assert after[j] == f.branches[j];
          }
        }
      }
    }
  }

  ghost predicate Schedule(n: nat, actions: seq<Action>)
    decreases |actions|, 0
  {
    actions == [] ||
    var front := actions[..|actions| - 1];
    Schedule(n, front) && Enabled(Run(n, front), actions[|actions| - 1])
  }

  ghost function Run(n: nat, actions: seq<Action>): Fan
    requires Schedule(n, actions)
    decreases |actions|, 1
  {
    if actions == [] then Start(n)
    else Apply(Run(n, actions[..|actions| - 1]), actions[|actions| - 1])
  }

  /** What the first completion of branch `k` in the schedule said; later ones are ignored. */
  ghost predicate FirstSays(actions: seq<Action>, k: nat, ok: bool) {
    exists i :: 0 <= i < |actions| && actions[i] == Swap(k, ok) &&
      forall j :: 0 <= j < i ==> !(actions[j].Swap? && actions[j].branch == k)
  }

  ghost predicate Untouched(actions: seq<Action>, k: nat) {
    forall j :: 0 <= j < |actions| ==> !(actions[j].Swap? && actions[j].branch == k)
  }

  /** Open branches are untouched, and the others carry what their first completion said. */
  ghost predicate CarriesFirst(actions: seq<Action>, branches: seq<Branch>) {
    forall k :: 0 <= k < |branches| ==>
      if branches[k].Open? then Untouched(actions, k) else FirstSays(actions, k, branches[k].ok)
  }

  lemma FirstSaysExtends(front: seq<Action>, a: Action, k: nat, ok: bool)
    requires FirstSays(front, k, ok)
    ensures FirstSays(front + [a], k, ok)
  {
    var actions := front + [a];
    var i :| 0 <= i < |front| && front[i] == Swap(k, ok) &&
      forall j :: 0 <= j < i ==> !(front[j].Swap? && front[j].branch == k);
    assert actions[i] == Swap(k, ok);
    assert forall j :: 0 <= j < i ==> actions[j] == front[j];
  }

  lemma ApplyCarriesFirst(f: Fan, front: seq<Action>, a: Action)
    requires Enabled(f, a) && CarriesFirst(front, f.branches)
    ensures CarriesFirst(front + [a], Apply(f, a).branches)
  {
    var actions, branches := front + [a], Apply(f, a).branches;
    forall k | 0 <= k < |branches|
      ensures if branches[k].Open? then Untouched(actions, k) else FirstSays(actions, k, branches[k].ok)
    {
      if !f.branches[k].Open? {
        FirstSaysExtends(front, a, k, f.branches[k].ok);
      } else if a.Swap? && a.branch == k {
        assert actions[|front|] == Swap(k, a.ok);
        assert forall j :: 0 <= j < |front| ==> actions[j] == front[j];
      }
    }
  }

  /** Over every schedule the invariant holds and a claimed branch carries its first verdict. */
  lemma {:induction false} RunConsistent(n: nat, actions: seq<Action>)
    requires n > 0 && Schedule(n, actions)
    ensures Consistent(Run(n, actions)) && |Run(n, actions).branches| == n
    ensures CarriesFirst(actions, Run(n, actions).branches)
  {
    if actions == [] {
      StartConsistent(n);
    } else {
      var front, a := actions[..|actions| - 1], actions[|actions| - 1];
      RunConsistent(n, front);
      ApplyConsistent(Run(n, front), a);
      ApplyCarriesFirst(Run(n, front), front, a);
      assert front + [a] == actions;
    }
  }

  /**
   * Over every order of `delivered`, `failed` and Drop: at most one verdict is ever sent, it is
   * sent exactly when every branch has been counted, and it is true if and only if each branch
   * was first completed with true. The sender is gone only once it has sent its verdict, so
   * `Fanout::send` never finds the channel closed without one.
   */
  lemma VerdictIsUnanimity(n: nat, actions: seq<Action>)
    requires n > 0 && Schedule(n, actions)
    ensures var f := Run(n, actions);
      && 0 <= f.shared.remaining <= n
      && |f.shared.sent| <= 1
      && (f.shared.sent != [] <==> AllCounted(f.branches))
      && (f.shared.notify <==> f.shared.sent == [])
      && (f.shared.sent != [] ==>
            (f.shared.sent[0] <==> forall k :: 0 <= k < n ==> FirstSays(actions, k, true)))
  {
    RunConsistent(n, actions);
    var f := Run(n, actions);
    OutstandingZero(f.branches);
    OutstandingBound(f.branches);
    if f.shared.sent != [] {
      forall k | 0 <= k < n ensures FirstSays(actions, k, f.branches[k].ok) {
        assert f.branches[k].Counted?;
      }
      if f.shared.sent[0] {
        forall k | 0 <= k < n ensures FirstSays(actions, k, true) {
          assert f.branches[k].ok;
        }
      } else {
        var k :| 0 <= k < n && f.branches[k].Counted? && !f.branches[k].ok;
        FirstSaysOnce(actions, k);
      }
    }
  }

  lemma {:induction false} OutstandingBound(branches: seq<Branch>)
    ensures Outstanding(branches) <= |branches|
  {
    if branches == [] {
    } else {
      OutstandingBound(branches[..|branches| - 1]);
    }
  }

  lemma FirstSaysOnce(actions: seq<Action>, k: nat)
    requires FirstSays(actions, k, false)
    ensures !FirstSays(actions, k, true)
  {
    var i :| 0 <= i < |actions| && actions[i] == Swap(k, false) &&
      forall j :: 0 <= j < i ==> !(actions[j].Swap? && actions[j].branch == k);
  }

  class AckState {
    var remaining: nat
    var delivered: bool
    var notify: bool
    var sent: seq<bool>

    constructor (destinations: nat)
      ensures View() == NewShared(destinations)
    {
      remaining, delivered, notify, sent := destinations, true, true, [];
    }

    ghost function View(): Shared
      reads this
    {
      Shared(remaining, delivered, notify, sent)
    }
  }

  class BranchAck {
    const state: AckState
    var completed: bool

    constructor (state: AckState)
      ensures this.state == state && !completed
    {
      this.state := state;
      completed := false;
    }

    /** Only the first call has an effect, so a drop after `delivered` changes nothing. */
    method Complete(delivered: bool)
      requires !completed ==> state.remaining > 0
      modifies this, state
      ensures completed
      ensures state.View() == if old(completed) then old(state.View()) else Count(old(state.View()), delivered)
    {
      var already := completed;
      completed := true;
      if already {
        return;
      }
      state.delivered := state.delivered && delivered;
      state.remaining := state.remaining - 1;
      if state.remaining == 0 && state.notify {
        state.notify := false;
        state.sent := state.sent + [state.delivered];
      }
    }

    method Drop()
      requires !completed ==> state.remaining > 0
      modifies this, state
      ensures completed
      ensures state.View() == if old(completed) then old(state.View()) else Count(old(state.View()), false)
    {
      Complete(false);
    }
  }
}
