/** pollNotifications of src/common/Polling.cpp: one pass over all segments, while nothing else runs. */
module NotificationPolling {
  import opened Tallies
  import opened Waits
  import opened WaitingRanges

  /** What one segment's turn did: the ranges in line (list, then newly published ones), their state
      before, the board after each range, and the notifications each range took. */
  datatype Outcome = Outcome(
    line: seq<WaitingRange>, views: seq<Wait>, trail: seq<Board>, notes: seq<seq<Note>>)

  ghost predicate Sized(o: Outcome) {
    |o.views| == |o.line| == |o.notes| && |o.trail| == |o.line| + 1
  }

  ghost function Kept(o: Outcome): seq<WaitingRange>
    requires Sized(o)
  {
    Split(o.line, o.views, o.notes, |o.line|, false)
  }

  ghost function Freed(o: Outcome): seq<WaitingRange>
    requires Sized(o)
  {
    Split(o.line, o.views, o.notes, |o.line|, true)
  }

  /** The tasks of the ranges, one event each. */
  ghost function TasksOf(rs: seq<WaitingRange>): multiset<nat> {
    if rs == [] then multiset{} else TasksOf(rs[..|rs| - 1]) + multiset{rs[|rs| - 1].task}
  }

  function OfTask(t: nat): WaitingRange -> bool {
    (r: WaitingRange) => r.task == t
  }

  lemma {:induction false} TasksOfCounts(rs: seq<WaitingRange>, t: nat)
    ensures TasksOf(rs)[t] == Count(rs, OfTask(t))
  {
    if rs != [] {
      var rest, last := rs[..|rs| - 1], rs[|rs| - 1];
      TasksOfCounts(rest, t);
      CountSnoc(rest, last, OfTask(t));
      assert rs == rest + [last];
    }
  }

  ghost function AllFreed(outcomes: seq<Outcome>): seq<WaitingRange>
    requires forall o :: o in outcomes ==> Sized(o)
  {
    if outcomes == [] then [] else AllFreed(outcomes[..|outcomes| - 1]) + Freed(outcomes[|outcomes| - 1])
  }

  lemma {:induction false} TasksAppend(a: seq<WaitingRange>, b: seq<WaitingRange>)
    ensures TasksOf(a + b) == TasksOf(a) + TasksOf(b)
  {
    hide TasksOf;
    if b == [] {
      assert a + b == a;
      NoTasks();
    } else {
      TasksAppend(a, b[..|b| - 1]);
      TasksLast(b);
      TasksLast(a + b);
      assert (a + b)[..|a + b| - 1] == a + b[..|b| - 1];
    }
  }

  lemma TasksLast(rs: seq<WaitingRange>)
    requires rs != []
    ensures TasksOf(rs) == TasksOf(rs[..|rs| - 1]) + multiset{rs[|rs| - 1].task}
  {
  }

  lemma AllFreedSnoc(outcomes: seq<Outcome>, o: Outcome)
    requires Sized(o) && forall p :: p in outcomes ==> Sized(p)
    ensures forall p :: p in outcomes + [o] ==> Sized(p)
    ensures AllFreed(outcomes + [o]) == AllFreed(outcomes) + Freed(o)
  {
    assert (outcomes + [o])[..|outcomes|] == outcomes;
  }

  /** Every counter is lower by exactly the multiplicity of its task. */
  ghost predicate Lowered(events: map<nat, int>, events0: map<nat, int>, tasks: multiset<nat>) {
    forall t :: EventsIn(events, t) == EventsIn(events0, t) - tasks[t]
  }

  lemma LoweredBoth(events: map<nat, int>, mid: map<nat, int>, events0: map<nat, int>, a: multiset<nat>, b: multiset<nat>)
    requires Lowered(mid, events0, a) && Lowered(events, mid, b)
    ensures Lowered(events, events0, a + b)
  {
  }

  lemma LoweredOne(events: map<nat, int>, task: nat)
    ensures Lowered(events, events, multiset{})
    ensures Lowered(events[task := EventsIn(events, task) - 1], events, multiset{task})
  {
  }

  /** complete() and free() of each finished range, in order. */
  method ReleaseAll(complete: seq<WaitingRange>, events0: map<nat, int>, pool0: seq<WaitingRange>)
    returns (events: map<nat, int>, pool: seq<WaitingRange>)
    ensures Lowered(events, events0, TasksOf(complete)) && pool == pool0 + complete
    ensures forall t :: EventsIn(events, t) == EventsIn(events0, t) - Count(complete, OfTask(t))
  {
    hide Lowered, TasksOf, EventsIn, OfTask;
    events, pool := events0, pool0;
    var k := 0;
    assert complete[..0] == [];
    NoTasks();
    LoweredOne(events, 0);
    while k < |complete|
      invariant 0 <= k <= |complete|
      invariant Lowered(events, events0, TasksOf(complete[..k]))
      invariant pool == pool0 + complete[..k]
    {
      TasksNext(complete, k);
      var task := complete[k].task;
      LoweredOne(events, task);
      LoweredBoth(events[task := EventsIn(events, task) - 1], events, events0, TasksOf(complete[..k]), multiset{task});
      events := events[task := EventsIn(events, task) - 1];
      pool := pool + [complete[k]];
      k := k + 1;
    }
    assert complete[..k] == complete;
    LoweredCounts(events, events0, complete);
  }

  lemma LoweredCounts(events: map<nat, int>, events0: map<nat, int>, rs: seq<WaitingRange>)
    requires Lowered(events, events0, TasksOf(rs))
    ensures forall t :: EventsIn(events, t) == EventsIn(events0, t) - Count(rs, OfTask(t))
  {
    forall t ensures EventsIn(events, t) == EventsIn(events0, t) - Count(rs, OfTask(t)) {
      TasksOfCounts(rs, t);
    }
  }

  lemma TasksNext(rs: seq<WaitingRange>, k: nat)
    requires k < |rs|
    ensures TasksOf(rs[..k + 1]) == TasksOf(rs[..k]) + multiset{rs[k].task}
    ensures rs[..k + 1] == rs[..k] + [rs[k]]
  {
    assert rs[..k + 1][..k] == rs[..k];
  }

  // ---- One segment ------------------------------------------------------

  /** The segment has had its turn: its line went from `views` to what the outcome records, and its
      list holds the pending ranges in order. */
  ghost predicate SegmentDone(o: Outcome, line: seq<WaitingRange>, views: seq<Wait>, origin: Board, board: NotificationBoard, list: seq<WaitingRange>)
    reads line, board
  {
    && Sized(o) && o.line == line && o.views == views
    && Progress(line, views, |line|, o.trail, o.notes)
    && o.trail[0] == origin && o.trail[|line|] == board.values
    && list == Kept(o)
  }

  /** The segment has not had its turn. */
  ghost predicate Untouched(line: seq<WaitingRange>, views: seq<Wait>, origin: Board, board: NotificationBoard)
    reads line, board
  {
    Views(line) == views && board.values == origin
  }

  ghost predicate Pending(views: seq<Wait>) {
    forall w :: w in views ==> 0 < w.rem <= w.num
  }

  lemma Ready(line: seq<WaitingRange>, views: seq<Wait>, origin: Board, board: NotificationBoard)
    requires Untouched(line, views, origin, board) && Pending(views)
    ensures forall r :: r in line ==> 0 < r.remaining <= r.numIds
  {
    forall r: WaitingRange | r in line ensures 0 < r.remaining <= r.numIds {
      var k :| 0 <= k < |line| && line[k] == r;
      assert views[k] == r.View();
      assert views[k] in views;
    }
  }

  /** One segment's part of the pass: the newly published ranges join the list, every range is
      checked, and the finished ones are completed and freed. */
  method PollSegment(list0: seq<WaitingRange>, queue0: seq<WaitingRange>, board: NotificationBoard,
                     ghost views: seq<Wait>, ghost origin: Board,
                     events0: map<nat, int>, pool0: seq<WaitingRange>)
    returns (list: seq<WaitingRange>, events: map<nat, int>, pool: seq<WaitingRange>, ghost o: Outcome)
    requires NoDup(list0 + queue0) && Untouched(list0 + queue0, views, origin, board) && Pending(views)
    modifies list0 + queue0, board
    ensures Sized(o) && SegmentDone(o, list0 + queue0, views, origin, board, list)
    ensures pool == pool0 + Freed(o) && Lowered(events, events0, TasksOf(Freed(o)))
  {
    hide Progress, Split, TasksOf, NoDup, Views, Pending, Lowered;
    Ready(list0 + queue0, views, origin, board);
    var complete;
    ghost var was, trail, notes;
    list, complete, was, trail, notes := CheckList(list0 + queue0, board);
    o := Outcome(list0 + queue0, was, trail, notes);
    events, pool := ReleaseAll(complete, events0, pool0);
  }

  /** Of the first n ranges those whose ids have all arrived, or the others, in order. */
  ghost function Chosen(line: seq<WaitingRange>, views: seq<Wait>, origin: Board, n: nat, arrived: bool): seq<WaitingRange>
    requires n <= |line| && n <= |views|
  {
    if n == 0 then [] else
    Chosen(line, views, origin, n - 1, arrived) + if AllArrived(origin, views[n - 1]) == arrived then [line[n - 1]] else []
  }

  lemma {:induction false} SplitIsChosen(line: seq<WaitingRange>, views: seq<Wait>, notes: seq<seq<Note>>, origin: Board, n: nat, arrived: bool)
    requires n <= |line| && n <= |views| && n <= |notes|
    requires forall k :: 0 <= k < n ==> (views[k].rem == |notes[k]| <==> AllArrived(origin, views[k]))
    ensures Split(line, views, notes, n, arrived) == Chosen(line, views, origin, n, arrived)
  {
    hide AllArrived, Split, Chosen;
    if n == 0 {
      SplitNone(line, views, notes);
      ChosenLast(line, views, origin, 0, arrived);
    } else {
      SplitIsChosen(line, views, notes, origin, n - 1, arrived);
      SplitLast(line, views, notes, n);
      ChosenLast(line, views, origin, n, arrived);
    }
  }

  lemma ChosenLast(line: seq<WaitingRange>, views: seq<Wait>, origin: Board, n: nat, arrived: bool)
    requires n <= |line| && n <= |views|
    ensures Chosen(line, views, origin, n, arrived) == if n == 0 then [] else
              Chosen(line, views, origin, n - 1, arrived) + if AllArrived(origin, views[n - 1]) == arrived then [line[n - 1]] else []
  {
  }

  /** Poll completeness: under the usage discipline a segment's turn frees exactly the ranges all of
      whose ids have arrived and keeps exactly the others, both in order, and clears every id that
      some range covers. */
  lemma SegmentIsExact(o: Outcome, line: seq<WaitingRange>, views: seq<Wait>, origin: Board, board: NotificationBoard, list: seq<WaitingRange>)
    requires |views| == |line| && SegmentDone(o, line, views, origin, board, list)
    requires DisjointRanges(views) && forall w :: w in views ==> Disciplined(origin, w)
    ensures Sized(o)
    ensures Freed(o) == Chosen(line, views, origin, |line|, true)
    ensures list == Chosen(line, views, origin, |line|, false)
    ensures forall id: nat :: At(board.values, id) == if CoveredUpTo(views, |views|, id) then 0 else At(origin, id)
  {
    hide AllArrived, DisjointRanges, Disciplined, CoveredUpTo, PassOver, Split;
    assert views[..|line|] == views;
    PassIsExact(views, o.trail, o.notes);
    SplitIsChosen(line, views, o.notes, origin, |line|, true);
    SplitIsChosen(line, views, o.notes, origin, |line|, false);
  }

  /** After a segment's turn every range is in order; a freed one has nothing left to wait for and
      has delivered its values, a pending one still waits for something. */
  lemma SegmentInOrder(o: Outcome, line: seq<WaitingRange>, views: seq<Wait>, origin: Board, board: NotificationBoard, list: seq<WaitingRange>, k: nat)
    requires |views| == |line| && SegmentDone(o, line, views, origin, board, list) && k < |line|
    requires WaitOk(views[k]) && ParkedBuffer(views[k])
    ensures Sized(o) && WaitOk(line[k].View()) && ParkedBuffer(line[k].View())
    ensures if views[k].rem == |o.notes[k]| then line[k].remaining == 0 && EarlyBuffer(line[k].View())
            else 0 < line[k].remaining <= line[k].numIds
  {
    hide WaitOk, ParkedBuffer, EarlyBuffer, Split, EndPoll, TakeAll;
    assert views[..|line|] == views;
    assert Turn(views[k], o.trail[k], o.trail[k + 1], o.notes[k]);
    assert Turned(line[k], views[k], o.notes[k]);
    TurnedOk(line[k], views[k], o.trail[k], o.trail[k + 1], o.notes[k]);
    RemainingBound(line[k].View());
  }

  lemma RemainingBound(w: Wait)
    requires WaitOk(w)
    ensures w.rem <= w.num
  {
  }

  // ---- All segments -----------------------------------------------------

  /** Every range object is in one place and every board belongs to one segment. */
  ghost predicate Separate(lines: seq<seq<WaitingRange>>, boards: seq<NotificationBoard>) {
    && |lines| == |boards|
    && (forall i, j :: 0 <= i < j < |boards| ==> boards[i] != boards[j])
    && (forall i :: 0 <= i < |lines| ==> NoDup(lines[i]))
    && (forall i, j, r: WaitingRange :: 0 <= i < |lines| && 0 <= j < |lines| && i != j && r in lines[i] ==> r !in lines[j])
  }

  ghost function AllRanges(lines: seq<seq<WaitingRange>>): set<WaitingRange> {
    set i, r | 0 <= i < |lines| && r in lines[i] :: r
  }

  ghost function Lines(lists: seq<seq<WaitingRange>>, queues: seq<seq<WaitingRange>>): (lines: seq<seq<WaitingRange>>)
    requires |lists| == |queues|
    ensures |lines| == |lists| && forall i :: 0 <= i < |lines| ==> lines[i] == lists[i] + queues[i]
  {
    seq(|lists|, i requires 0 <= i < |lists| => lists[i] + queues[i])
  }

  ghost function AllViews(lines: seq<seq<WaitingRange>>): (views: seq<seq<Wait>>)
    reads AllRanges(lines)
    ensures |views| == |lines| && forall i :: 0 <= i < |lines| ==> views[i] == Views(lines[i])
  {
    if lines == [] then [] else
    var rest := lines[..|lines| - 1];
    assert AllRanges(rest) <= AllRanges(lines);
    assert forall r :: r in lines[|lines| - 1] ==> r in AllRanges(lines);
    AllViews(rest) + [Views(lines[|lines| - 1])]
  }

  ghost function Origins(boards: seq<NotificationBoard>): (origins: seq<Board>)
    reads boards
    ensures |origins| == |boards| && forall i :: 0 <= i < |boards| ==> origins[i] == boards[i].values
  {
    if boards == [] then [] else Origins(boards[..|boards| - 1]) + [boards[|boards| - 1].values]
  }

  lemma Apart(lines: seq<seq<WaitingRange>>, boards: seq<NotificationBoard>, i: nat, j: nat)
    requires Separate(lines, boards) && i < |lines| && j < |lines| && i != j
    ensures boards[i] != boards[j] && forall r :: r in lines[i] ==> r !in lines[j]
  {
  }

  lemma Lined(lines: seq<seq<WaitingRange>>, boards: seq<NotificationBoard>, i: nat)
    requires Separate(lines, boards) && i < |lines|
    ensures NoDup(lines[i]) && forall r :: r in lines[i] ==> r in AllRanges(lines)
  {
  }

  /** The segments before `seg` have had their turn, the others not. */
  ghost predicate Midway(seg: nat, outcomes: seq<Outcome>, lines: seq<seq<WaitingRange>>, views: seq<seq<Wait>>, origins: seq<Board>,
                         boards: seq<NotificationBoard>, lists: seq<seq<WaitingRange>>)
    reads AllRanges(lines), boards
  {
    && |lines| == |views| == |origins| == |boards|
    && seg <= |boards| && |lists| == |outcomes| == seg
    && (forall i :: 0 <= i < seg ==>
          (assert forall r :: r in lines[i] ==> r in AllRanges(lines);
           SegmentDone(outcomes[i], lines[i], views[i], origins[i], boards[i], lists[i])))
    && (forall i :: seg <= i < |boards| ==>
          (assert forall r :: r in lines[i] ==> r in AllRanges(lines);
           Untouched(lines[i], views[i], origins[i], boards[i])))
  }

  /** The turn of segment `seg`. */
  method SegmentTurn(seg: nat, list0: seq<WaitingRange>, queue0: seq<WaitingRange>, ghost outcomes: seq<Outcome>,
                     ghost lines: seq<seq<WaitingRange>>, ghost views: seq<seq<Wait>>, ghost origins: seq<Board>,
                     boards: seq<NotificationBoard>, ghost lists: seq<seq<WaitingRange>>,
                     events0: map<nat, int>, pool0: seq<WaitingRange>)
    returns (list: seq<WaitingRange>, events: map<nat, int>, pool: seq<WaitingRange>, ghost o: Outcome)
    requires seg < |boards| && Separate(lines, boards) && Midway(seg, outcomes, lines, views, origins, boards, lists)
    requires lines[seg] == list0 + queue0 && Pending(views[seg])
    modifies lines[seg], boards[seg]
    ensures Midway(seg + 1, outcomes + [o], lines, views, origins, boards, lists + [list])
    ensures Sized(o) && pool == pool0 + Freed(o) && Lowered(events, events0, TasksOf(Freed(o)))
  {
    hide Progress, TasksOf, NoDup, SegmentDone, Untouched, Separate, Views, Pending, Freed, Sized, AllRanges, Lowered;
    Lined(lines, boards, seg);
    list, events, pool, o := PollSegment(list0, queue0, boards[seg], views[seg], origins[seg], events0, pool0);
    forall i | 0 <= i < |boards| && i != seg ensures unchanged(lines[i]) && unchanged(boards[i]) {
      Apart(lines, boards, i, seg);
      forall k | 0 <= k < |lines[i]| ensures unchanged(lines[i][k]) {
        assert old(allocated(lines[i]));
        assert old(allocated(lines[i][k]));
        assert lines[i][k] in lines[i];
      }
    }
  }

  /** pollNotifications(): every segment in turn. */
  method PollNotifications(lists0: seq<seq<WaitingRange>>, queues0: seq<seq<WaitingRange>>, boards: seq<NotificationBoard>,
                           events0: map<nat, int>, pool0: seq<WaitingRange>)
    returns (lists: seq<seq<WaitingRange>>, events: map<nat, int>, pool: seq<WaitingRange>, ghost outcomes: seq<Outcome>)
    requires |lists0| == |queues0| == |boards| && Separate(Lines(lists0, queues0), boards)
    requires forall views :: views in AllViews(Lines(lists0, queues0)) ==> Pending(views)
    modifies AllRanges(Lines(lists0, queues0)), boards
    ensures |lists| == |outcomes| == |boards|
    ensures forall i :: 0 <= i < |boards| ==>
              SegmentDone(outcomes[i], lists0[i] + queues0[i], old(AllViews(Lines(lists0, queues0)))[i],
                          old(Origins(boards))[i], boards[i], lists[i])
    ensures forall o :: o in outcomes ==> Sized(o)
    ensures pool == pool0 + AllFreed(outcomes) && Lowered(events, events0, TasksOf(AllFreed(outcomes)))
    ensures forall t :: EventsIn(events, t) == EventsIn(events0, t) - Count(AllFreed(outcomes), OfTask(t))
  {
    hide Progress, TasksOf, NoDup, SegmentDone, Untouched, Separate, Views, Pending, Kept, Freed, AllFreed, Sized, AllRanges, Midway, Lowered, EventsIn, OfTask;
    ghost var lines, views, origins := Lines(lists0, queues0), AllViews(Lines(lists0, queues0)), Origins(boards);
    StartUntouched(lines, boards);
    events, pool := events0, pool0;
    lists, outcomes := [], [];
    NoTasks();
    LoweredOne(events, 0);
    var seg := 0;
    while seg < |boards|
      invariant 0 <= seg <= |boards|
      invariant Midway(seg, outcomes, lines, views, origins, boards, lists)
      invariant forall o :: o in outcomes ==> Sized(o)
      invariant pool == pool0 + AllFreed(outcomes) && Lowered(events, events0, TasksOf(AllFreed(outcomes)))
    {
      Lined(lines, boards, seg);
      var list;
      ghost var o;
      ghost var mid := events;
      list, events, pool, o := SegmentTurn(seg, lists0[seg], queues0[seg], outcomes, lines, views, origins, boards, lists, events, pool);
      AllFreedSnoc(outcomes, o);
      TasksAppend(AllFreed(outcomes), Freed(o));
      LoweredBoth(events, mid, events0, TasksOf(AllFreed(outcomes)), TasksOf(Freed(o)));
      lists, outcomes := lists + [list], outcomes + [o];
      seg := seg + 1;
    }
    AllDone(outcomes, lines, views, origins, boards, lists);
    LoweredCounts(events, events0, AllFreed(outcomes));
  }

  lemma AllDone(outcomes: seq<Outcome>, lines: seq<seq<WaitingRange>>, views: seq<seq<Wait>>, origins: seq<Board>,
                boards: seq<NotificationBoard>, lists: seq<seq<WaitingRange>>)
    requires Midway(|boards|, outcomes, lines, views, origins, boards, lists)
    ensures |lists| == |outcomes| == |lines| == |views| == |origins| == |boards|
    ensures forall i :: 0 <= i < |boards| ==> SegmentDone(outcomes[i], lines[i], views[i], origins[i], boards[i], lists[i])
  {
  }

  lemma StartUntouched(lines: seq<seq<WaitingRange>>, boards: seq<NotificationBoard>)
    requires |lines| == |boards|
    ensures Midway(0, [], lines, AllViews(lines), Origins(boards), boards, [])
  {
  }

  lemma NoTasks()
    ensures TasksOf([]) == multiset{} && AllFreed([]) == []
  {
  }
}
