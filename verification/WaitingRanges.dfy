/** The scan of notifications and one pass of the notification poller, in place on range objects:
    src/common/WaitingRange.hpp, WaitingRangeList.hpp and pollNotifications of Polling.cpp, while no
    notification arrives and no call is made during the pass. */
module WaitingRanges {
  import opened Tallies
  import opened Waits

  // ---- What a scan may take --------------------------------------------

  ghost function SetIds(board: Board, first: nat, num: nat): set<nat> {
    set id | id in Range(first, num) && At(board, id) != 0
  }

  /** Taking a list of notifications, one after the other. */
  ghost function TakeAll(w: Wait, notes: seq<Note>, polled: bool): Wait {
    if notes == [] then w else
    var last := notes[|notes| - 1];
    TakeNote(TakeAll(w, notes[..|notes| - 1], polled), last.id, last.value, polled)
  }

  /** `notes` are values found on the board for ids of the range, no id twice, and `after` is the
      board with exactly those ids cleared. */
  ghost predicate Consumes(before: Board, after: Board, w: Wait, notes: seq<Note>) {
    && DistinctIds(notes)
    && (forall n :: n in notes ==> n.seg == w.seg && w.Covers(n.id) && n.value == At(before, n.id) != 0)
    && (forall id: nat :: At(after, id) == if TookId(notes, id) then 0 else At(before, id))
  }

  lemma {:induction false} TakeAllCounts(w: Wait, notes: seq<Note>, polled: bool)
    requires forall n :: n in notes ==> n.seg == w.seg
    ensures var w' := TakeAll(w, notes, polled);
            && w'.rem == w.rem - |notes| && w'.got == w.got + notes
            && w'.task == w.task && w'.seg == w.seg && w'.first == w.first && w'.num == w.num && w'.keep == w.keep
  {
    if notes != [] {
      TakeAllCounts(w, notes[..|notes| - 1], polled);
      assert notes == notes[..|notes| - 1] + [notes[|notes| - 1]];
    } else {
      assert w.got + notes == w.got;
    }
  }

  lemma TakeAllSnoc(w: Wait, notes: seq<Note>, n: Note, polled: bool)
    ensures TakeAll(w, notes + [n], polled) == TakeNote(TakeAll(w, notes, polled), n.id, n.value, polled)
  {
    assert (notes + [n])[..|notes|] == notes;
  }

  lemma TookSnoc(notes: seq<Note>, n: Note, id: nat)
    ensures TookId(notes + [n], id) <==> TookId(notes, id) || n.id == id
  {
    assert n in notes + [n];
    assert forall m :: m in notes + [n] <==> m in notes || m == n;
  }

  lemma TookCovered(w: Wait, notes: seq<Note>, id: nat)
    requires forall n :: n in notes ==> w.Covers(n.id)
    ensures TookId(notes, id) ==> w.Covers(id)
  {
  }

  /** One more set id consumed. */
  lemma ConsumesSnoc(before: Board, mid: Board, w: Wait, notes: seq<Note>, id: nat)
    requires Consumes(before, mid, w, notes) && w.Covers(id) && At(mid, id) != 0
    ensures Consumes(before, mid[id := 0], w, notes + [Note(w.seg, id, At(mid, id))])
  {
    var n := Note(w.seg, id, At(mid, id));
    var notes' := notes + [n];
    assert !TookId(notes, id);
    forall i, j | 0 <= i < j < |notes'| ensures notes'[i].id != notes'[j].id {
      if j == |notes| {
        assert notes[i] in notes;
      }
    }
    forall k: nat ensures At(mid[id := 0], k) == if TookId(notes', k) then 0 else At(before, k) {
      TookSnoc(notes, n, k);
    }
  }

  /** A scan that stops only when nothing remains or nothing is set takes as many notifications as
      are set, up to what remained. */
  lemma ScanTakesAll(before: Board, after: Board, w: Wait, notes: seq<Note>)
    requires Consumes(before, after, w, notes) && |notes| <= w.rem
    requires |notes| == w.rem || SetIds(after, w.first, w.num) == {}
    ensures var set' := |SetIds(before, w.first, w.num)|;
            |notes| == if set' < w.rem then set' else w.rem
    ensures |SetIds(before, w.first, w.num)| <= w.rem ==>
              forall id: nat :: At(after, id) == if w.Covers(id) then 0 else At(before, id)
  {
    var ids := SetIds(before, w.first, w.num);
    IdsSize(notes);
    forall id | id in IdsOf(notes) ensures id in ids {
      var n :| n in notes && n.id == id;
    }
    SubsetAtMost(IdsOf(notes), ids);
    if SetIds(after, w.first, w.num) == {} {
      forall id | id in ids ensures id in IdsOf(notes) {
        assert id !in SetIds(after, w.first, w.num);
        assert TookId(notes, id);
      }
      assert ids == IdsOf(notes);
    }
    if |ids| <= w.rem {
      SubsetEqual(IdsOf(notes), ids);
      forall id: nat ensures At(after, id) == if w.Covers(id) then 0 else At(before, id) {
        if w.Covers(id) && At(before, id) != 0 {
          assert id in ids;
          assert TookId(notes, id);
        }
        TookCovered(w, notes, id);
      }
    }
  }

  /** Under the usage discipline, where ids already taken are distinct and clear, no more ids are
      set than remain. */
  lemma DisciplineBoundsSetIds(board: Board, w: Wait)
    requires WaitOk(w)
    requires DistinctIds(w.got)
    requires forall n :: n in w.got ==> At(board, n.id) == 0
    ensures |SetIds(board, w.first, w.num)| <= w.rem
  {
    IdsSize(w.got);
    var ids := SetIds(board, w.first, w.num);
    assert ids !! IdsOf(w.got);
    assert IdsOf(w.got) <= Range(w.first, w.num);
    assert ids + IdsOf(w.got) <= Range(w.first, w.num);
    SubsetAtMost(ids + IdsOf(w.got), Range(w.first, w.num));
  }

  // ---- The board and one range -----------------------------------------

  /** gaspi_notify_waitsome and gaspi_notify_reset on one segment. */
  class NotificationBoard {
    var values: Board

    method Waitsome(first: nat, num: nat) returns (found: bool, id: nat)
      ensures found ==> first <= id < first + num && At(values, id) != 0
      ensures !found ==> SetIds(values, first, num) == {}
    {
      if k: nat :| first <= k < first + num && At(values, k) != 0 {
        return true, k;
      }
      return false, first;
    }

    method Reset(id: nat) returns (v: nat)
      modifies this
      ensures v == At(old(values), id) && values == old(values)[id := 0]
    {
      v := At(values, id);
      values := values[id := 0];
    }
  }

  /** The counting loop over several ids. */
  method ScanNotifications(board: NotificationBoard, w0: Wait, polled: bool) returns (w: Wait, ghost notes: seq<Note>)
    requires 0 < w0.rem <= w0.num
    modifies board
    ensures w == TakeAll(w0, notes, polled) && Consumes(old(board.values), board.values, w0, notes)
    ensures 0 <= w.rem == w0.rem - |notes|
    ensures w.rem == 0 || SetIds(board.values, w0.first, w0.num) == {}
  {
    w := w0;
    notes := [];
    var cont := true;
    while cont && w.rem > 0
      invariant w == TakeAll(w0, notes, polled) && Consumes(old(board.values), board.values, w0, notes)
      invariant 0 <= w.rem == w0.rem - |notes|
      invariant w.first == w0.first && w.num == w0.num && w.seg == w0.seg
      invariant cont || SetIds(board.values, w0.first, w0.num) == {}
      decreases w.rem, cont
    {
      cont := false;
      var found, id := board.Waitsome(w.first, w.num);
      if found {
        ConsumesSnoc(old(board.values), board.values, w0, notes, id);
        var v := board.Reset(id);
        if v != 0 {
          TakeAllSnoc(w0, notes, Note(w.seg, id, v), polled);
          notes := notes + [Note(w.seg, id, v)];
          w := TakeNote(w, id, v, polled);
          cont := true;
        }
      }
    }
  }

  /** The check of a single id: one look, one reset. */
  method CheckNotification(board: NotificationBoard, w0: Wait, polled: bool) returns (w: Wait, ghost notes: seq<Note>)
    requires w0.rem == 1 == w0.num
    modifies board
    ensures w == TakeAll(w0, notes, polled) && Consumes(old(board.values), board.values, w0, notes)
    ensures 0 <= w.rem == w0.rem - |notes|
    ensures w.rem == 0 || SetIds(board.values, w0.first, w0.num) == {}
  {
    w := w0;
    notes := [];
    assert Consumes(old(board.values), board.values, w0, notes);
    var found, id := board.Waitsome(w.first, 1);
    if found {
      ConsumesSnoc(old(board.values), board.values, w0, notes, id);
      var v := board.Reset(id);
      if v != 0 {
        TakeAllSnoc(w0, notes, Note(w.seg, id, v), polled);
        notes := notes + [Note(w.seg, id, v)];
        w := TakeNote(w, id, v, polled);
      }
    }
  }

  /** A range object; `got` is history. */
  class WaitingRange {
    const task: nat
    const segment: nat
    const firstId: nat
    const numIds: nat
    const keep: bool
    var notifiedValues: map<nat, nat>
    var notifiedValue: nat
    var remaining: int
    ghost var got: seq<Note>

    ghost function View(): Wait
      reads this
    {
      Wait(task, segment, firstId, numIds, keep, remaining, notifiedValue, notifiedValues, got)
    }

    /** Constructed from what the early check left over; the value field starts with anything. */
    constructor (w: Wait, garbage: nat)
      ensures View() == w.(value := garbage)
    {
      task, segment, firstId, numIds, keep := w.task, w.seg, w.first, w.num, w.keep;
      notifiedValues, notifiedValue, remaining, got := w.buffer, garbage, w.rem, w.got;
    }

    /** checkNotifications(): a single id goes through the object's own value field. */
    method CheckNotifications(board: NotificationBoard) returns (done: bool, ghost notes: seq<Note>)
      requires 0 < remaining <= numIds
      modifies this, board
      ensures View() == EndPoll(TakeAll(old(View()), notes, true))
      ensures Consumes(old(board.values), board.values, old(View()), notes)
      ensures 0 <= remaining == old(remaining) - |notes|
      ensures done == (remaining == 0)
      ensures done || SetIds(board.values, firstId, numIds) == {}
      ensures numIds == 1 ==>
                && |notes| <= 1 && notifiedValue == (if notes == [] then old(notifiedValue) else notes[0].value)
                && notifiedValues == if keep then old(notifiedValues)[firstId := notifiedValue] else old(notifiedValues)
      ensures numIds > 1 ==>
                && notifiedValue == old(notifiedValue)
                && notifiedValues == if keep then old(notifiedValues) + Written(notes) else old(notifiedValues)
    {
      var before := Wait(task, segment, firstId, numIds, keep, remaining, notifiedValue, notifiedValues, []);
      var w: Wait;
      ghost var mine := View();
      if numIds == 1 {
        w, notes := CheckNotification(board, before, true);
      } else {
        w, notes := ScanNotifications(board, before, true);
      }
      hide TakeAll, Consumes;
      TakeAllCounts(before, notes, true);
      TakeAllCounts(mine, notes, true);
      TakeAllHistory(mine, before, notes);
      TakeAllWrites(before, notes);
      remaining, notifiedValue, notifiedValues := w.rem, w.value, w.buffer;
      got := got + notes;
      if numIds == 1 && keep {
        notifiedValues := notifiedValues[firstId := notifiedValue];
      }
      done := remaining == 0;
      ConsumesHistory(old(board.values), board.values, mine, before, notes);
    }
  }

  /** What the poller's check writes: the values to their ids in order, or a single value to the object's
      own field. */
  lemma {:induction false} TakeAllWrites(w: Wait, notes: seq<Note>)
    ensures w.num > 1 ==>
              && TakeAll(w, notes, true).value == w.value
              && TakeAll(w, notes, true).buffer == if w.keep then w.buffer + Written(notes) else w.buffer
    ensures w.num == 1 ==>
              && TakeAll(w, notes, true).value == (if notes == [] then w.value else notes[|notes| - 1].value)
              && TakeAll(w, notes, true).buffer == w.buffer
    ensures TakeAll(w, notes, true).num == w.num && TakeAll(w, notes, true).keep == w.keep
  {
    if notes == [] {
      assert w.buffer + map[] == w.buffer;
    } else {
      TakeAllWrites(w, notes[..|notes| - 1]);
    }
  }

  lemma ConsumesHistory(before: Board, after: Board, w: Wait, v: Wait, notes: seq<Note>)
    requires v == w.(got := v.got) && Consumes(before, after, v, notes)
    ensures Consumes(before, after, w, notes)
  {
  }

  /** The history of a wait does not influence what taking notifications writes. */
  lemma {:induction false} TakeAllHistory(w: Wait, v: Wait, notes: seq<Note>)
    requires v == w.(got := v.got)
    ensures TakeAll(w, notes, true).buffer == TakeAll(v, notes, true).buffer
    ensures TakeAll(w, notes, true).value == TakeAll(v, notes, true).value
    ensures TakeAll(w, notes, true).num == TakeAll(v, notes, true).num == w.num
    ensures TakeAll(w, notes, true).keep == TakeAll(v, notes, true).keep == w.keep
  {
    if notes != [] {
      TakeAllHistory(w, v, notes[..|notes| - 1]);
    }
  }

  // ---- One list of ranges ----------------------------------------------

  ghost function Views(rs: seq<WaitingRange>): (vs: seq<Wait>)
    reads rs
    ensures |vs| == |rs|
    ensures forall i :: 0 <= i < |rs| ==> vs[i] == rs[i].View()
  {
    if rs == [] then [] else Views(rs[..|rs| - 1]) + [rs[|rs| - 1].View()]
  }

  /** Of the first n ranges those that finish, or those that do not, in order. */
  ghost function Split(rs: seq<WaitingRange>, views: seq<Wait>, notes: seq<seq<Note>>, n: nat, finished: bool): seq<WaitingRange>
    requires n <= |rs| && n <= |views| && n <= |notes|
  {
    if n == 0 then [] else
    Split(rs, views, notes, n - 1, finished) + if (views[n - 1].rem == |notes[n - 1]|) == finished then [rs[n - 1]] else []
  }

  lemma {:induction false} SplitSnoc(rs: seq<WaitingRange>, views: seq<Wait>, notes: seq<seq<Note>>, ns: seq<Note>, n: nat, finished: bool)
    requires n <= |rs| && n <= |views| && n <= |notes|
    ensures Split(rs, views, notes + [ns], n, finished) == Split(rs, views, notes, n, finished)
  {
    if n > 0 {
      SplitSnoc(rs, views, notes, ns, n - 1, finished);
    }
  }

  lemma SplitNone(rs: seq<WaitingRange>, views: seq<Wait>, notes: seq<seq<Note>>)
    ensures Split(rs, views, notes, 0, true) == [] == Split(rs, views, notes, 0, false)
  {
  }

  lemma SplitNext(rs: seq<WaitingRange>, views: seq<Wait>, notes: seq<seq<Note>>, ns: seq<Note>, n: nat)
    requires n < |rs| && n < |views| && n == |notes|
    ensures var finished := views[n].rem == |ns|;
            && Split(rs, views, notes + [ns], n + 1, finished) == Split(rs, views, notes, n, finished) + [rs[n]]
            && Split(rs, views, notes + [ns], n + 1, !finished) == Split(rs, views, notes, n, !finished)
  {
    SplitSnoc(rs, views, notes, ns, n, true);
    SplitSnoc(rs, views, notes, ns, n, false);
  }

  /** No range is lost or duplicated by the split. */
  lemma {:induction false} SplitKeepsAll(rs: seq<WaitingRange>, views: seq<Wait>, notes: seq<seq<Note>>, n: nat)
    requires n <= |rs| && n <= |views| && n <= |notes|
    ensures multiset(Split(rs, views, notes, n, true)) + multiset(Split(rs, views, notes, n, false)) == multiset(rs[..n])
  {
    hide Split;
    if n == 0 {
      SplitNone(rs, views, notes);
      assert rs[..0] == [];
    } else {
      SplitKeepsAll(rs, views, notes, n - 1);
      SplitKeepsStep(rs, views, notes, n);
    }
  }

  lemma SplitKeepsStep(rs: seq<WaitingRange>, views: seq<Wait>, notes: seq<seq<Note>>, n: nat)
    requires 0 < n <= |rs| && n <= |views| && n <= |notes|
    requires multiset(Split(rs, views, notes, n - 1, true)) + multiset(Split(rs, views, notes, n - 1, false))
             == multiset(rs[..n - 1])
    ensures multiset(Split(rs, views, notes, n, true)) + multiset(Split(rs, views, notes, n, false)) == multiset(rs[..n])
  {
    hide Split;
    SplitLast(rs, views, notes, n);
    AppendEither(Split(rs, views, notes, n - 1, true), Split(rs, views, notes, n - 1, false),
                 Split(rs, views, notes, n, true), Split(rs, views, notes, n, false), rs[..n - 1], rs[n - 1]);
    assert rs[..n] == rs[..n - 1] + [rs[n - 1]];
  }

  lemma SplitLast(rs: seq<WaitingRange>, views: seq<Wait>, notes: seq<seq<Note>>, n: nat)
    requires 0 < n <= |rs| && n <= |views| && n <= |notes|
    ensures var finished := views[n - 1].rem == |notes[n - 1]|;
            && Split(rs, views, notes, n, finished) == Split(rs, views, notes, n - 1, finished) + [rs[n - 1]]
            && Split(rs, views, notes, n, !finished) == Split(rs, views, notes, n - 1, !finished)
  {
  }

  lemma AppendEither<T>(a: seq<T>, b: seq<T>, a': seq<T>, b': seq<T>, all: seq<T>, x: T)
    requires multiset(a) + multiset(b) == multiset(all)
    requires (a' == a + [x] && b' == b) || (a' == a && b' == b + [x])
    ensures multiset(a') + multiset(b') == multiset(all + [x])
  {
  }

  ghost predicate NoDup(rs: seq<WaitingRange>) {
    forall i, j :: 0 <= i < j < |rs| ==> rs[i] != rs[j]
  }

  /** The k-th range took notes[k] while the board went from trail[k] to trail[k + 1]; each range
      took everything set for it, up to what remained. */
  ghost predicate PassOver(views: seq<Wait>, trail: seq<Board>, notes: seq<seq<Note>>) {
    && |trail| == |views| + 1 && |notes| == |views|
    && forall k :: 0 <= k < |views| ==> Turn(views[k], trail[k], trail[k + 1], notes[k])
  }

  ghost predicate Turn(w: Wait, before: Board, after: Board, notes: seq<Note>) {
    && Consumes(before, after, w, notes)
    && |notes| <= w.rem
    && (|notes| == w.rem || SetIds(after, w.first, w.num) == {})
  }

  lemma MakeTurn(w: Wait, before: Board, after: Board, notes: seq<Note>)
    requires Consumes(before, after, w, notes) && |notes| <= w.rem
    requires |notes| == w.rem || SetIds(after, w.first, w.num) == {}
    ensures Turn(w, before, after, notes)
  {
  }

  lemma PassOverNone(board: Board)
    ensures PassOver([], [board], [])
  {
  }

  lemma PassOverSnoc(views: seq<Wait>, trail: seq<Board>, notes: seq<seq<Note>>, w: Wait, after: Board, ns: seq<Note>)
    requires PassOver(views, trail, notes) && |trail| > |views| && Turn(w, trail[|views|], after, ns)
    ensures PassOver(views + [w], trail + [after], notes + [ns])
  {
    var views', trail', notes' := views + [w], trail + [after], notes + [ns];
    forall k | 0 <= k < |views'| ensures Turn(views'[k], trail'[k], trail'[k + 1], notes'[k]) {
      if k < |views| {
        assert Turn(views[k], trail[k], trail[k + 1], notes[k]);
      }
    }
  }

  /** The element behind the kept ones is the next of the original list; erased or passed over. */
  lemma EraseAt<T>(kept: seq<T>, list0: seq<T>, seen: nat)
    requires seen < |list0|
    ensures var list := kept + list0[seen..];
            && |kept| < |list| && list[|kept|] == list0[seen]
            && list[..|kept|] + list[|kept| + 1..] == kept + list0[seen + 1..]
            && list == kept + [list0[seen]] + list0[seen + 1..]
  {
    assert list0[seen..] == [list0[seen]] + list0[seen + 1..];
  }

  /** The list being worked on: the pending ranges seen so far, then those still to come. */
  ghost predicate InStep(list0: seq<WaitingRange>, views: seq<Wait>, notes: seq<seq<Note>>, seen: nat,
                         list: seq<WaitingRange>, complete: seq<WaitingRange>, it: nat) {
    && seen <= |list0| == |views| && seen == |notes|
    && it == |Split(list0, views, notes, seen, false)|
    && list == Split(list0, views, notes, seen, false) + list0[seen..]
    && complete == Split(list0, views, notes, seen, true)
  }

  lemma InStepStart(list0: seq<WaitingRange>, views: seq<Wait>)
    requires |list0| == |views|
    ensures InStep(list0, views, [], 0, list0, [], 0)
  {
  }

  lemma InStepGuard(list0: seq<WaitingRange>, views: seq<Wait>, notes: seq<seq<Note>>, seen: nat,
                    list: seq<WaitingRange>, complete: seq<WaitingRange>, it: nat)
    requires InStep(list0, views, notes, seen, list, complete, it)
    ensures it < |list| ==> seen < |list0| && list[it] == list0[seen]
    ensures it >= |list| ==> seen == |list0| && list == Split(list0, views, notes, seen, false) && complete == Split(list0, views, notes, seen, true)
  {
    hide Split;
    if it >= |list| {
      assert list0[seen..] == [];
    }
  }

  /** Erasing the finished element, or stepping over the pending one, keeps list and iterator in step. */
  lemma InStepNext(list0: seq<WaitingRange>, views: seq<Wait>, notes: seq<seq<Note>>, ns: seq<Note>, seen: nat,
                   list: seq<WaitingRange>, complete: seq<WaitingRange>, it: nat)
    requires InStep(list0, views, notes, seen, list, complete, it) && it < |list|
    ensures seen < |list0|
    ensures if views[seen].rem == |ns| then
              InStep(list0, views, notes + [ns], seen + 1, list[..it] + list[it + 1..], complete + [list[it]], it)
            else InStep(list0, views, notes + [ns], seen + 1, list, complete, it + 1)
  {
    hide Split;
    InStepGuard(list0, views, notes, seen, list, complete, it);
    SplitNext(list0, views, notes, ns, seen);
    EraseAt(Split(list0, views, notes, seen, false), list0, seen);
  }

  /** A range after its turn. */
  ghost predicate Turned(r: WaitingRange, w: Wait, notes: seq<Note>)
    reads r
  {
    r.View() == EndPoll(TakeAll(w, notes, true)) && 0 <= r.remaining == w.rem - |notes|
  }

  /** The first `seen` ranges have had their turn, the others have not been touched. */
  ghost predicate Progress(rs: seq<WaitingRange>, views: seq<Wait>, seen: nat, trail: seq<Board>, notes: seq<seq<Note>>)
    reads rs
  {
    && |views| == |rs| && seen <= |rs| && |trail| == seen + 1 && |notes| == seen
    && PassOver(views[..seen], trail, notes)
    && (forall k :: 0 <= k < seen ==> Turned(rs[k], views[k], notes[k]))
    && (forall k :: seen <= k < |rs| ==> rs[k].View() == views[k])
  }

  lemma ProgressNone(rs: seq<WaitingRange>, board: Board)
    ensures Progress(rs, Views(rs), 0, [board], [])
  {
    PassOverNone(board);
    assert Views(rs)[..0] == [];
  }

  /** The turn of the range at position `seen`. */
  method OneTurn(ghost rs: seq<WaitingRange>, ghost views: seq<Wait>, ghost seen: nat, ghost trail: seq<Board>,
                 ghost notes: seq<seq<Note>>, wr: WaitingRange, board: NotificationBoard)
    returns (done: bool, ghost trail': seq<Board>, ghost ns: seq<Note>)
    requires NoDup(rs) && seen < |rs| == |views| && Progress(rs, views, seen, trail, notes)
    requires |trail| == seen + 1 && |notes| == seen && trail[seen] == board.values
    requires 0 < views[seen].rem <= views[seen].num
    requires wr == rs[seen]
    modifies wr, board
    ensures Progress(rs, views, seen + 1, trail', notes + [ns]) && |trail'| == seen + 2
    ensures trail'[0] == trail[0] && trail'[seen + 1] == board.values
    ensures done == (views[seen].rem == |ns|)
  {
    hide TakeAll, EndPoll, Consumes, SetIds, Turn, PassOver;
    done, ns := wr.CheckNotifications(board);
    MakeTurn(views[seen], trail[seen], board.values, ns);
    PassOverSnoc(views[..seen], trail, notes, views[seen], board.values, ns);
    assert views[..seen] + [views[seen]] == views[..seen + 1];
    trail' := trail + [board.values];
    forall k | 0 <= k < seen + 1 ensures Turned(rs[k], views[k], (notes + [ns])[k]) {
      if k < seen {
        assert Turned(rs[k], views[k], notes[k]);
      }
    }
  }

  /** The loop over the list that erases finished ranges as it goes: a stable split of the list. */
  method CheckList(list0: seq<WaitingRange>, board: NotificationBoard)
    returns (list: seq<WaitingRange>, complete: seq<WaitingRange>,
             ghost views: seq<Wait>, ghost trail: seq<Board>, ghost notes: seq<seq<Note>>)
    requires NoDup(list0) && forall r :: r in list0 ==> 0 < r.remaining <= r.numIds
    modifies list0, board
    ensures views == old(Views(list0)) && |notes| == |list0| && |trail| == |list0| + 1
    ensures Progress(list0, views, |list0|, trail, notes)
    ensures list == Split(list0, views, notes, |list0|, false) && complete == Split(list0, views, notes, |list0|, true)
    ensures trail[0] == old(board.values) && trail[|list0|] == board.values
  {
    hide Turned, PassOver, Progress, NoDup, InStep, Split, Turn, Consumes, Views, TakeAll, EndPoll, SetIds;
    views := Views(list0);
    list, complete := list0, [];
    trail, notes := [board.values], [];
    ProgressNone(list0, board.values);
    InStepStart(list0, views);
    assert forall k :: 0 <= k < |views| ==> 0 < views[k].rem <= views[k].num;
    var it := 0;
    ghost var seen := 0;
    InStepGuard(list0, views, notes, seen, list, complete, it);
    while it < |list|
      invariant 0 <= seen <= |list0| && |notes| == seen && |trail| == seen + 1
      invariant Progress(list0, views, seen, trail, notes)
      invariant InStep(list0, views, notes, seen, list, complete, it)
      invariant trail[0] == old(board.values) && trail[seen] == board.values
      decreases |list0| - seen
    {
      var wr := list[it];
      InStepGuard(list0, views, notes, seen, list, complete, it);
      var done;
      ghost var ns;
      done, trail, ns := OneTurn(list0, views, seen, trail, notes, wr, board);
      InStepNext(list0, views, notes, ns, seen, list, complete, it);
      notes := notes + [ns];
      if done {
        complete := complete + [wr];
        list := list[..it] + list[it + 1..];
      } else {
        it := it + 1;
      }
      seen := seen + 1;
    }
    InStepGuard(list0, views, notes, seen, list, complete, it);
  }

  // ---- The pass is exact under the usage discipline ----------------------

  ghost predicate CoveredUpTo(views: seq<Wait>, n: nat, id: nat)
    requires n <= |views|
  {
    exists k :: 0 <= k < n && views[k].Covers(id)
  }

  /** The ranges of one segment never overlap. */
  ghost predicate DisjointRanges(views: seq<Wait>) {
    forall i, j, id: nat :: 0 <= i < j < |views| && views[i].Covers(id) ==> !views[j].Covers(id)
  }

  /** No range has more ids set than it still waits for. */
  ghost predicate Fits(board: Board, views: seq<Wait>) {
    forall k :: 0 <= k < |views| ==> |SetIds(board, views[k].first, views[k].num)| <= views[k].rem
  }

  lemma {:induction false} PassPrefix(views: seq<Wait>, trail: seq<Board>, notes: seq<seq<Note>>, n: nat)
    requires PassOver(views, trail, notes) && DisjointRanges(views) && Fits(trail[0], views) && n <= |views|
    ensures forall id: nat :: At(trail[n], id) == if CoveredUpTo(views, n, id) then 0 else At(trail[0], id)
    ensures forall k :: 0 <= k < n ==> |notes[k]| == |SetIds(trail[0], views[k].first, views[k].num)|
  {
    if n > 0 {
      var w := views[n - 1];
      PassPrefix(views, trail, notes, n - 1);
      assert Turn(w, trail[n - 1], trail[n], notes[n - 1]);
      forall id | id in Range(w.first, w.num) ensures At(trail[n - 1], id) == At(trail[0], id) {
        NotCoveredTwice(views, n, id);
      }
      assert SetIds(trail[n - 1], w.first, w.num) == SetIds(trail[0], w.first, w.num);
      ScanTakesAll(trail[n - 1], trail[n], w, notes[n - 1]);
      forall id: nat ensures CoveredUpTo(views, n, id) <==> CoveredUpTo(views, n - 1, id) || w.Covers(id) {
        CoveredNext(views, n, id);
      }
    }
  }

  lemma NotCoveredTwice(views: seq<Wait>, n: nat, id: nat)
    requires DisjointRanges(views) && 0 < n <= |views| && views[n - 1].Covers(id)
    ensures !CoveredUpTo(views, n - 1, id)
  {
  }

  lemma CoveredNext(views: seq<Wait>, n: nat, id: nat)
    requires 0 < n <= |views|
    ensures CoveredUpTo(views, n, id) <==> CoveredUpTo(views, n - 1, id) || views[n - 1].Covers(id)
  {
    if CoveredUpTo(views, n - 1, id) {
      var k :| 0 <= k < n - 1 && views[k].Covers(id);
      assert views[k].Covers(id);
    }
  }

  /** One pass over a list clears every id that some range of it covers and leaves the others alone;
      it takes for each range exactly the ids set for it, so a range finishes exactly when every id
      it still waits for was set. */
  lemma PassIsExact(views: seq<Wait>, trail: seq<Board>, notes: seq<seq<Note>>)
    requires PassOver(views, trail, notes) && DisjointRanges(views)
    requires forall w :: w in views ==> Disciplined(trail[0], w)
    ensures forall id: nat :: At(trail[|views|], id) == if CoveredUpTo(views, |views|, id) then 0 else At(trail[0], id)
    ensures forall k :: 0 <= k < |views| ==> |notes[k]| == |SetIds(trail[0], views[k].first, views[k].num)|
    ensures forall k :: 0 <= k < |views| ==> (views[k].rem == |notes[k]| <==> AllArrived(trail[0], views[k]))
  {
    forall k | 0 <= k < |views| ensures |SetIds(trail[0], views[k].first, views[k].num)| <= views[k].rem {
      assert views[k] in views;
      DisciplineBoundsSetIds(trail[0], views[k]);
    }
    PassPrefix(views, trail, notes, |views|);
    forall k | 0 <= k < |views| ensures views[k].rem == |notes[k]| <==> AllArrived(trail[0], views[k]) {
      assert views[k] in views;
      ArrivedIffFull(trail[0], views[k]);
    }
  }

  /** The books are right, no id was taken twice, and the ids taken are clear. */
  ghost predicate Disciplined(board: Board, w: Wait) {
    && WaitOk(w)
    && DistinctIds(w.got)
    && (forall n :: n in w.got ==> At(board, n.id) == 0)
  }

  /** Every id was taken before or is set now. */
  ghost predicate AllArrived(board: Board, w: Wait) {
    forall id :: id in Range(w.first, w.num) ==> id in IdsOf(w.got) || At(board, id) != 0
  }

  lemma ArrivedIffFull(board: Board, w: Wait)
    requires Disciplined(board, w)
    ensures |SetIds(board, w.first, w.num)| == w.rem <==> AllArrived(board, w)
  {
    IdsSize(w.got);
    var now, before := SetIds(board, w.first, w.num), IdsOf(w.got);
    assert now !! before && now + before <= Range(w.first, w.num);
    assert |now + before| == |now| + |before|;
    if |now| == w.rem {
      SubsetEqual(now + before, Range(w.first, w.num));
    }
    if AllArrived(board, w) {
      assert Range(w.first, w.num) == now + before;
    }
  }

  /** Taking notifications for a parked range keeps its books and its buffer in order. */
  lemma {:induction false} TakeAllOk(w: Wait, notes: seq<Note>)
    requires WaitOk(w) && ParkedBuffer(w) && |notes| <= w.rem
    requires forall n :: n in notes ==> n.seg == w.seg && w.Covers(n.id) && n.value != 0
    ensures WaitOk(TakeAll(w, notes, true)) && ParkedBuffer(TakeAll(w, notes, true))
  {
    if notes != [] {
      var rest, last := notes[..|notes| - 1], notes[|notes| - 1];
      TakeAllOk(w, rest);
      TakeAllCounts(w, rest, true);
      TakePolled(TakeAll(w, rest, true), last.id, last.value);
    }
  }

  /** After its turn a range is still in order, and if it finished its values are delivered. */
  lemma TurnedOk(r: WaitingRange, w: Wait, before: Board, after: Board, notes: seq<Note>)
    requires Turned(r, w, notes) && WaitOk(w) && ParkedBuffer(w) && Turn(w, before, after, notes)
    ensures WaitOk(r.View()) && ParkedBuffer(r.View())
    ensures r.remaining == 0 ==> EarlyBuffer(r.View())
  {
    TakeAllOk(w, notes);
    EndPollBuffer(TakeAll(w, notes, true));
  }
}
