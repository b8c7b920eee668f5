/** The early check of a wait call as a sequence of accesses: the scan of notifications by
    checkNotification and checkNotifications of src/common/WaitingRange.hpp, with the others before
    each access. */
module Scans {
  import opened Waits
  import opened Completion
  import opened Interference

  /** The steps `mine`, each after the others have had theirs: `env(start + i)` comes before mine[i]. */
  ghost function Weave(env: nat -> seq<Action>, start: nat, mine: seq<Action>): seq<Action> {
    if mine == [] then [] else
    var n := |mine| - 1;
    Weave(env, start, mine[..n]) + env(start + n) + [mine[n]]
  }

  lemma WeaveNone(s: Sys, env: nat -> seq<Action>, start: nat)
    ensures Run(s, Weave(env, start, [])) == s
  {
  }

  lemma WeaveNext(s: Sys, env: nat -> seq<Action>, start: nat, mine: seq<Action>, a: Action)
    ensures Run(s, Weave(env, start, mine + [a])) == Step(Run(Run(s, Weave(env, start, mine)), env(start + |mine|)), a)
  {
    hide Run, Step;
    assert (mine + [a])[..|mine|] == mine;
    RunAppend(s, Weave(env, start, mine), env(start + |mine|));
    RunSnoc(s, Weave(env, start, mine) + env(start + |mine|), a);
  }

  ghost predicate IsHit(a: Action, t: nat) {
    a.LookHit? && a.t == t
  }

  /** Looks that hit, each with its reset. */
  ghost predicate Hits(mine: seq<Action>, t: nat) {
    && |mine| % 2 == 0
    && forall i :: 0 <= i < |mine| ==> if i % 2 == 0 then IsHit(mine[i], t) else mine[i] == Action.Reset(t)
  }

  /** A scan: looks that hit, and perhaps a last one that does not. */
  ghost predicate IsScan(mine: seq<Action>, t: nat) {
    && mine != []
    && (Hits(mine, t) || (mine[|mine| - 1] == LookMiss(t) && Hits(mine[..|mine| - 1], t)))
  }

  lemma HitsNext(mine: seq<Action>, id: nat, t: nat)
    requires Hits(mine, t)
    ensures IsScan(mine + [LookMiss(t)], t)
    ensures Hits(mine + [LookHit(t, id)] + [Action.Reset(t)], t) && IsScan(mine + [LookHit(t, id)] + [Action.Reset(t)], t)
  {
    assert (mine + [LookMiss(t)])[..|mine|] == mine;
  }

  /** Some id of the range is set. */
  ghost predicate AnySet(board: Board, first: nat, num: nat) {
    exists id: nat :: first <= id < first + num && At(board, id) != 0
  }

  /** What a look must find: some set id of the range if there is one and the look does not time out
      before it sees it, otherwise nothing. */
  ghost predicate Finds(s: Sys, seg: nat, first: nat, num: nat, timeout: bool, look: Action, t: nat) {
    && seg < |s.segs|
    && if !timeout && AnySet(s.segs[seg].board, first, num)
       then IsHit(look, t) && first <= look.id < first + num && At(s.segs[seg].board, look.id) != 0
       else look == LookMiss(t)
  }

  /** Every look of the scan found what it must; `timeouts(k)` tells whether the look before which the
      others had their k-th turn times out early. */
  ghost predicate Honest(s: Sys, env: nat -> seq<Action>, start: nat, timeouts: nat -> bool, mine: seq<Action>,
                         seg: nat, first: nat, num: nat, t: nat) {
    forall i :: 0 <= i < |mine| && i % 2 == 0 ==>
      Finds(Run(Run(s, Weave(env, start, mine[..i])), env(start + i)), seg, first, num, timeouts(start + i), mine[i], t)
  }

  lemma HonestNext(s: Sys, env: nat -> seq<Action>, start: nat, timeouts: nat -> bool, mine: seq<Action>,
                   seg: nat, first: nat, num: nat, a: Action, t: nat)
    requires Honest(s, env, start, timeouts, mine, seg, first, num, t)
    requires |mine| % 2 == 0 ==>
               Finds(Run(Run(s, Weave(env, start, mine)), env(start + |mine|)), seg, first, num, timeouts(start + |mine|), a, t)
    ensures Honest(s, env, start, timeouts, mine + [a], seg, first, num, t)
  {
    hide Run, Weave, Finds;
    var mine' := mine + [a];
    assert mine'[..|mine|] == mine;
    forall i | 0 <= i < |mine'| && i % 2 == 0
      ensures Finds(Run(Run(s, Weave(env, start, mine'[..i])), env(start + i)), seg, first, num, timeouts(start + i), mine'[i], t)
    {
      if i < |mine| {
        assert mine'[..i] == mine[..i];
      }
    }
  }

  /** The notifications taken are those of the first looks, in order. */
  ghost predicate FromLooks(notes: seq<Note>, mine: seq<Action>, seg: nat, t: nat) {
    && 2 * |notes| <= |mine|
    && forall i :: 0 <= i < |notes| ==>
         notes[i].seg == seg && notes[i].value != 0 && mine[2 * i] == LookHit(t, notes[i].id)
  }

  /** Every look that hit took a notification, except perhaps the last, if somebody else was first; and
      the scan stopped because nothing remained, because a look found nothing, or because somebody
      else was first. */
  ghost predicate StopsRightly(mine: seq<Action>, notes: seq<Note>, remaining: int, t: nat) {
    if remaining == 0 then |mine| == 2 * |notes|
    else if mine != [] && mine[|mine| - 1] == LookMiss(t) then |mine| == 2 * |notes| + 1
    else |mine| == 2 * |notes| + 2
  }

  lemma StopsAtNothing(mine: seq<Action>, notes: seq<Note>, t: nat)
    requires |mine| == 2 * |notes|
    ensures StopsRightly(mine, notes, 0, t)
  {
  }

  /** The scan stops at a miss, or at a look that hit for nothing. */
  lemma StopsEarly(mine: seq<Action>, notes: seq<Note>, id: nat, remaining: int, t: nat)
    requires |mine| == 2 * |notes| && remaining > 0
    ensures StopsRightly(mine + [LookMiss(t)], notes, remaining, t)
    ensures StopsRightly(mine + [LookHit(t, id)] + [Action.Reset(t)], notes, remaining, t)
  {
  }

  lemma StartScan(s: Sys, env: nat -> seq<Action>, start: nat, timeouts: nat -> bool, seg: nat, first: nat, num: nat, t: nat)
    ensures Run(s, Weave(env, start, [])) == s && Hits([], t) && FromLooks([], [], seg, t)
    ensures Honest(s, env, start, timeouts, [], seg, first, num, t)
  {
  }

  lemma LooksNext(notes: seq<Note>, mine: seq<Action>, seg: nat, id: nat, v: nat, t: nat)
    requires FromLooks(notes, mine, seg, t) && |mine| == 2 * |notes| && v != 0
    ensures FromLooks(notes + [Note(seg, id, v)], mine + [LookHit(t, id)] + [Action.Reset(t)], seg, t)
    ensures FromLooks(notes, mine + [LookHit(t, id)] + [Action.Reset(t)], seg, t)
    ensures FromLooks(notes, mine + [LookMiss(t)], seg, t)
  {
  }

  /** Every look that hits, and every notification taken, is in the range. */
  lemma ScanInRange(s: Sys, env: nat -> seq<Action>, start: nat, timeouts: nat -> bool, mine: seq<Action>, notes: seq<Note>,
                    seg: nat, first: nat, num: nat, t: nat)
    requires IsScan(mine, t) && Honest(s, env, start, timeouts, mine, seg, first, num, t) && FromLooks(notes, mine, seg, t)
    ensures forall n :: n in notes ==> n.seg == seg && first <= n.id < first + num && n.value != 0
    ensures forall id: nat :: LookHit(t, id) in mine ==> first <= id < first + num
  {
    hide Run, Weave;
    forall i | 0 <= i < |mine| && IsHit(mine[i], t) ensures i % 2 == 0 && first <= mine[i].id < first + num {
      assert Finds(Run(Run(s, Weave(env, start, mine[..i])), env(start + i)), seg, first, num, timeouts(start + i), mine[i], t);
    }
    forall n | n in notes ensures first <= n.id < first + num {
      var i :| 0 <= i < |notes| && notes[i] == n;
      assert mine[2 * i] == LookHit(t, n.id);
    }
    forall id: nat | LookHit(t, id) in mine ensures first <= id < first + num {
      var i :| 0 <= i < |mine| && mine[i] == LookHit(t, id);
    }
  }
}
