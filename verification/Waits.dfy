/** Values shared by the completion protocol and by the scan of notifications: the notification
    board, a wait for a range of ids, and what taking one notification does to the wait. */
module Waits {

  /** One non-zero value read and zeroed by gaspi_notify_reset. */
  datatype Note = Note(seg: nat, id: nat, value: nat)

  /** The event counter of a task in the tasking runtime's books; it starts at 0. */
  function EventsIn(events: map<nat, int>, task: nat): int {
    if task in events then events[task] else 0
  }

  /** The notification values of one segment; ids that are absent hold 0. */
  type Board = map<nat, nat>

  function At(board: Board, id: nat): nat {
    if id in board then board[id] else 0
  }

  /** A call of tagaspi_notify_async_wait(all) and, once parked, its WaitingRange object. `rem` is
      the remaining counter, `value` the object's own value field, `buffer` what has been written
      to the caller's array (by id), unless `keep` is false (GASPI_NOTIFICATION_IGNORE).
      `got` is history: the notifications taken for this wait, in order. */
  datatype Wait = Wait(
    task: nat, seg: nat, first: nat, num: nat, keep: bool,
    rem: int, value: nat, buffer: map<nat, nat>, got: seq<Note>)
  {
    predicate Covers(id: nat) {
      first <= id < first + num
    }
  }

  /** The wait asks for the given ids on behalf of the given task. */
  predicate Asks(w: Wait, task: nat, seg: nat, first: nat, num: nat, keep: bool) {
    w.task == task && w.seg == seg && w.first == first && w.num == num && w.keep == keep
  }

  /** The same request, whatever has been taken for it so far. */
  predicate SameRequest(w: Wait, v: Wait) {
    Asks(w, v.task, v.seg, v.first, v.num, v.keep)
  }

  function NewWait(task: nat, seg: nat, first: nat, num: nat, keep: bool): (w: Wait)
    ensures Asks(w, task, seg, first, num, keep) && w.rem == num && w.got == [] && w.buffer == map[]
    ensures forall id: nat :: w.Covers(id) <==> first <= id < first + num
  {
    Wait(task, seg, first, num, keep, num, 0, map[], [])
  }

  /** A reset returned the non-zero value v of id. The poller's check of a single-id range stores
      it in the object; every other check writes the caller's array at once. */
  function TakeNote(w: Wait, id: nat, v: nat, polled: bool): (w': Wait)
    ensures SameRequest(w', w) && w'.rem == w.rem - 1 && w'.got == w.got + [Note(w.seg, id, v)]
  {
    var w' := w.(rem := w.rem - 1, got := w.got + [Note(w.seg, id, v)]);
    if polled && w.num == 1 then w'.(value := v)
    else if w.keep then w'.(buffer := w.buffer[id := v])
    else w'
  }

  /** The poller's check returns: a single-id range copies its value field to the caller's
      variable, whether or not anything arrived. */
  function EndPoll(w: Wait): (w': Wait)
    ensures SameRequest(w', w) && w'.rem == w.rem && w'.got == w.got
  {
    if w.num == 1 && w.keep then w.(buffer := w.buffer[w.first := w.value]) else w
  }

  /** The array contents that result from writing the values taken, in order. */
  ghost function Written(got: seq<Note>): map<nat, nat> {
    if got == [] then map[]
    else Written(got[..|got| - 1])[got[|got| - 1].id := got[|got| - 1].value]
  }

  lemma WrittenSnoc(got: seq<Note>, n: Note)
    ensures Written(got + [n]) == Written(got)[n.id := n.value]
  {
    assert (got + [n])[..|got|] == got;
  }

  /** The remaining counter and the notifications taken always add up to the ids requested. */
  ghost predicate WaitOk(w: Wait) {
    && w.num >= 1
    && 0 <= w.rem == w.num - |w.got|
    && forall n :: n in w.got ==> n.seg == w.seg && w.Covers(n.id) && n.value != 0
  }

  /** What the caller's array holds while the wait is checked by the caller itself. */
  ghost predicate EarlyBuffer(w: Wait) {
    w.buffer == if w.keep then Written(w.got) else map[]
  }

  /** What it holds while the wait is parked. A single-id range may have scribbled on it. */
  ghost predicate ParkedBuffer(w: Wait) {
    if w.num > 1 then EarlyBuffer(w)
    else w.buffer.Keys <= {w.first} && (w.got != [] ==> w.value == w.got[0].value) && (!w.keep ==> w.buffer == map[])
  }

  lemma TakeEarly(w: Wait, id: nat, v: nat)
    requires WaitOk(w) && EarlyBuffer(w) && w.rem > 0 && w.Covers(id) && v != 0
    ensures WaitOk(TakeNote(w, id, v, false)) && EarlyBuffer(TakeNote(w, id, v, false))
  {
    WrittenSnoc(w.got, Note(w.seg, id, v));
  }

  lemma TakePolled(w: Wait, id: nat, v: nat)
    requires WaitOk(w) && ParkedBuffer(w) && w.rem > 0 && w.Covers(id) && v != 0
    ensures WaitOk(TakeNote(w, id, v, true)) && ParkedBuffer(TakeNote(w, id, v, true))
  {
    if w.num > 1 {
      TakeEarly(w, id, v);
    } else {
      assert w.got == [];
    }
  }

  lemma EndPollKeeps(w: Wait)
    requires WaitOk(w) && ParkedBuffer(w)
    ensures WaitOk(EndPoll(w)) && ParkedBuffer(EndPoll(w))
  {
    hide Written;
  }

  lemma EndPollDelivers(w: Wait)
    requires WaitOk(w) && ParkedBuffer(w) && w.rem == 0
    ensures EarlyBuffer(EndPoll(w))
  {
    if w.num == 1 {
      hide Written;
      assert w.got == [w.got[0]];
      WrittenOne(w.got[0]);
    }
  }

  lemma WrittenOne(n: Note)
    ensures Written([n]) == map[n.id := n.value]
  {
    assert [n][..0] == [];
  }

  /** A parked wait whose check just returned with nothing remaining has delivered its values. */
  lemma EndPollBuffer(w: Wait)
    requires WaitOk(w) && ParkedBuffer(w)
    ensures WaitOk(EndPoll(w)) && ParkedBuffer(EndPoll(w))
    ensures w.rem == 0 ==> EarlyBuffer(EndPoll(w))
  {
    hide WaitOk, ParkedBuffer, EarlyBuffer, EndPoll;
    EndPollKeeps(w);
    if w.rem == 0 {
      EndPollDelivers(w);
    }
  }

  /** No id was taken twice. */
  ghost predicate DistinctIds(got: seq<Note>) {
    forall i, j :: 0 <= i < j < |got| ==> got[i].id != got[j].id
  }

  /** Without repeats, writing in order leaves each taken value in its place. */
  lemma {:induction false} WrittenValues(got: seq<Note>)
    requires DistinctIds(got)
    ensures forall n :: n in got ==> n.id in Written(got) && Written(got)[n.id] == n.value
    ensures forall id :: id in Written(got) ==> TookId(got, id)
  {
    if got != [] {
      var rest, last := got[..|got| - 1], got[|got| - 1];
      WrittenValues(rest);
      assert got == rest + [last];
      forall id | id in Written(got) ensures TookId(got, id) {
        if id == last.id {
          assert last in got;
        } else {
          assert TookId(rest, id);
          var n :| n in rest && n.id == id;
          assert n in got;
        }
      }
    }
  }

  /** Some notification on this id was taken. */
  ghost predicate TookId(got: seq<Note>, id: nat) {
    exists n :: n in got && n.id == id
  }

  /** The ids of a range. */
  ghost function Range(first: nat, num: nat): (ids: set<nat>)
    ensures |ids| == num && forall id :: id in ids <==> first <= id < first + num
  {
    if num == 0 then {} else Range(first, num - 1) + {first + num - 1}
  }

  /** `num` distinct ids out of `num` are all of them. */
  lemma AllCovered(got: seq<Note>, first: nat, num: nat)
    requires |got| == num
    requires forall n :: n in got ==> first <= n.id < first + num
    requires DistinctIds(got)
    ensures forall id: nat :: first <= id < first + num ==> TookId(got, id)
  {
    IdsSize(got);
    assert IdsOf(got) <= Range(first, num);
    SubsetEqual(IdsOf(got), Range(first, num));
    forall id: nat | first <= id < first + num ensures TookId(got, id) {
      assert id in Range(first, num);
    }
  }

  ghost function IdsOf(got: seq<Note>): set<nat> {
    set n | n in got :: n.id
  }

  lemma {:induction false} IdsSize(got: seq<Note>)
    requires DistinctIds(got)
    ensures |IdsOf(got)| == |got|
  {
    if got != [] {
      var rest, last := got[..|got| - 1], got[|got| - 1];
      IdsSize(rest);
      assert got == rest + [last];
      assert IdsOf(got) == IdsOf(rest) + {last.id};
    }
  }

  lemma {:induction false} IdsAtMost(got: seq<Note>)
    ensures |IdsOf(got)| <= |got|
  {
    if got != [] {
      var rest, last := got[..|got| - 1], got[|got| - 1];
      IdsAtMost(rest);
      assert got == rest + [last];
      assert IdsOf(got) == IdsOf(rest) + {last.id};
    }
  }

  lemma {:induction false} SubsetEqual<T>(a: set<T>, b: set<T>)
    requires a <= b && |a| == |b|
    ensures a == b
    decreases a
  {
    if x :| x in a {
      SubsetEqual(a - {x}, b - {x});
    }
  }
}
