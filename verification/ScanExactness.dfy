/** When a wait that counts notifications has waited for its ids: the exact condition on the board at
    the scan that finishes it (checkNotifications of src/common/WaitingRange.hpp). */
module ScanExactness {
  import opened Tallies
  import opened Waits
  import opened WaitingRanges

  /** Some scan of the board takes exactly these notifications for the wait. */
  ghost predicate CanTake(board: Board, w: Wait, notes: seq<Note>) {
    exists after: Board :: Turn(w, board, after, notes)
  }

  ghost predicate AllTaken(w: Wait, notes: seq<Note>) {
    forall id: nat :: w.Covers(id) ==> TookId(w.got + notes, id)
  }

  /** Every scan of the board that leaves nothing remaining has all ids. */
  ghost predicate FinishesOnlyWithAll(board: Board, w: Wait) {
    forall notes :: CanTake(board, w, notes) && |notes| == w.rem ==> AllTaken(w, notes)
  }

  /** An id that was taken for the wait is set once more. */
  ghost predicate SetAgain(board: Board, w: Wait) {
    exists n :: n in w.got && At(board, n.id) != 0
  }

  lemma TookEither(got: seq<Note>, notes: seq<Note>, id: nat)
    ensures TookId(got + notes, id) <==> id in IdsOf(got) || id in IdsOf(notes)
  {
    assert forall n :: n in got + notes <==> n in got || n in notes;
  }

  lemma TakenAreSet(board: Board, w: Wait, notes: seq<Note>)
    requires CanTake(board, w, notes)
    ensures |IdsOf(notes)| == |notes| && IdsOf(notes) <= SetIds(board, w.first, w.num)
  {
    IdsSize(notes);
    forall id | id in IdsOf(notes) ensures id in SetIds(board, w.first, w.num) {
      var n :| n in notes && n.id == id;
    }
  }

  lemma GotInRange(w: Wait)
    requires WaitOk(w)
    ensures IdsOf(w.got) <= Range(w.first, w.num)
  {
  }

  /** Without a repeat, what remained and was taken are the other ids. */
  lemma NoRepeatTakesAll(board: Board, w: Wait, notes: seq<Note>)
    requires WaitOk(w) && DistinctIds(w.got) && !SetAgain(board, w)
    requires CanTake(board, w, notes) && |notes| == w.rem
    ensures AllTaken(w, notes)
  {
    var before, now := IdsOf(w.got), IdsOf(notes);
    IdsSize(w.got);
    TakenAreSet(board, w, notes);
    GotInRange(w);
    assert before !! now;
    assert |before + now| == |before| + |now|;
    SubsetEqual(before + now, Range(w.first, w.num));
    forall id: nat | w.Covers(id) ensures TookId(w.got + notes, id) {
      TookEither(w.got, notes, id);
      assert id in before + now;
    }
  }

  /** A subset of the given size that contains x. */
  lemma {:induction false} PickWith(s: set<nat>, x: nat, k: nat) returns (p: set<nat>)
    requires x in s && 1 <= k <= |s|
    ensures x in p && p <= s && |p| == k
    decreases |s|
  {
    if k == |s| {
      p := s;
    } else {
      var y: nat := OtherThan(s, x);
      p := PickWith(s - {y}, x, k);
    }
  }

  lemma OtherThan(s: set<nat>, x: nat) returns (y: nat)
    requires x in s && |s| >= 2
    ensures y in s && y != x
  {
    assert |s - {x}| >= 1;
    y :| y in s - {x};
  }

  /** The notifications of a set of ids, as a scan that comes upon them in some order. */
  lemma {:induction false} NotesOf(board: Board, seg: nat, ids: set<nat>) returns (notes: seq<Note>)
    requires forall id :: id in ids ==> At(board, id) != 0
    ensures IdsOf(notes) == ids && |notes| == |ids| && DistinctIds(notes)
    ensures forall n :: n in notes ==> n.seg == seg && n.value == At(board, n.id)
    decreases |ids|
  {
    if ids == {} {
      notes := [];
    } else {
      var id :| id in ids;
      var rest := NotesOf(board, seg, ids - {id});
      notes := rest + [Note(seg, id, At(board, id))];
      assert forall i :: 0 <= i < |rest| ==> rest[i] in rest && rest[i].id in IdsOf(rest);
      assert IdsOf(notes) == IdsOf(rest) + {id};
    }
  }

  /** The board with some ids cleared. */
  ghost function Without(board: Board, ids: set<nat>): Board {
    map id | id in board && id !in ids :: board[id]
  }

  lemma ScanOf(board: Board, w: Wait, notes: seq<Note>)
    requires DistinctIds(notes) && IdsOf(notes) <= SetIds(board, w.first, w.num) && |notes| == w.rem
    requires forall n :: n in notes ==> n.seg == w.seg && n.value == At(board, n.id)
    ensures CanTake(board, w, notes)
  {
    var after := Without(board, IdsOf(notes));
    forall id: nat ensures At(after, id) == if TookId(notes, id) then 0 else At(board, id) {
      assert id in IdsOf(notes) <==> TookId(notes, id);
    }
    forall n | n in notes ensures w.Covers(n.id) && n.value == At(board, n.id) != 0 {
      assert n.id in IdsOf(notes);
    }
    assert Turn(w, board, after, notes);
  }

  /** With a repeat and enough ids set, some scan finishes without having all ids. */
  lemma RepeatMissesOne(board: Board, w: Wait) returns (notes: seq<Note>)
    requires WaitOk(w) && w.rem > 0 && SetAgain(board, w)
    requires |SetIds(board, w.first, w.num)| >= w.rem
    ensures CanTake(board, w, notes) && |notes| == w.rem && !AllTaken(w, notes)
  {
    var n :| n in w.got && At(board, n.id) != 0;
    var ids := PickWith(SetIds(board, w.first, w.num), n.id, w.rem);
    notes := NotesOf(board, w.seg, ids);
    ScanOf(board, w, notes);
    TooFew(w, notes, n.id);
  }

  lemma TooFew(w: Wait, notes: seq<Note>, id: nat)
    requires WaitOk(w) && |notes| == w.rem && id in IdsOf(w.got) && id in IdsOf(notes)
    ensures !AllTaken(w, notes)
  {
    var before, now := IdsOf(w.got), IdsOf(notes);
    IdsAtMost(w.got);
    IdsAtMost(notes);
    assert before + now == before + (now - {id});
    assert |before + (now - {id})| <= |before| + |now| - 1;
    if AllTaken(w, notes) {
      forall k | k in Range(w.first, w.num) ensures k in before + now {
        TookEither(w.got, notes, k);
      }
      SubsetAtMost(Range(w.first, w.num), before + now);
    }
  }

  /** A pending wait that has taken no id twice finishes only with all its ids if and only if no id
      it has taken is set again, or too few ids are set for it to finish at all. */
  lemma FinishesExactly(board: Board, w: Wait)
    requires WaitOk(w) && w.rem > 0 && DistinctIds(w.got)
    ensures FinishesOnlyWithAll(board, w) <==> !SetAgain(board, w) || |SetIds(board, w.first, w.num)| < w.rem
  {
    if !SetAgain(board, w) || |SetIds(board, w.first, w.num)| < w.rem {
      forall notes | CanTake(board, w, notes) && |notes| == w.rem ensures AllTaken(w, notes) {
        TakenAreSet(board, w, notes);
        SubsetAtMost(IdsOf(notes), SetIds(board, w.first, w.num));
        if !SetAgain(board, w) {
          NoRepeatTakesAll(board, w, notes);
        }
      }
    } else {
      var notes := RepeatMissesOne(board, w);
    }
  }
}
