/** Every step of the completion protocol keeps the books balanced and its data in shape. */
module CompletionProofs {
  import opened Tallies
  import opened Waits
  import opened Completion
  import opened CompletionAccounts

  // ---- Where things may stand ------------------------------------------

  ghost predicate PcOk(s: Sys, p: Pc) {
    match p
    case Idle => true
    case Submitting(task, n, queue) => task != TAG_NULL && n > 0 && queue < |s.queues|
    case RollingBack(task, n) => task != TAG_NULL && n > 0
    case Looking(w) => w.rem > 0 && w.seg < |s.segs|
    case Resetting(w, id) => w.rem > 0 && w.seg < |s.segs| && w.Covers(id)
    case Checked(w) => w.seg < |s.segs|
    case Raised(w) => w.seg < |s.segs|
    case Publishing(w, _) => w.rem > 0 && w.seg < |s.segs|
  }

  ghost predicate ThreadsOk(s: Sys) {
    forall t :: 0 <= t < |s.threads| ==> PcOk(s, s.threads[t])
  }

  /** A parked range of segment i that still waits for something. */
  ghost predicate Pending(l: Live, i: nat) {
    l.Parked? && l.w.seg == i && l.w.rem > 0
  }

  ghost predicate SegOk(s: Sys, i: nat)
    requires i < |s.segs|
  {
    && (forall l :: l in s.segs[i].queue ==> Pending(l, i))
    && (forall k :: 0 <= k < |s.segs[i].list| ==>
          Pending(s.segs[i].list[k], i)
          || (i == s.noteSeg && s.notePc == PollChecked(k) && s.segs[i].list[k].Parked? && s.segs[i].list[k].w.seg == i))
  }

  ghost predicate SegsOk(s: Sys) {
    forall i :: 0 <= i < |s.segs| ==> SegOk(s, i)
  }

  /** A range whose ids have all been counted and whose values have reached the caller. */
  ghost predicate Finished(l: Live) {
    (l.Parked? || l.Completed?) && l.w.rem == 0 && EarlyBuffer(l.w)
  }

  ghost predicate CompleteOk(s: Sys) {
    forall k :: 0 <= k < |s.complete| ==>
      Finished(s.complete[k]) && (s.complete[k].Completed? <==> s.notePc.Freeing? && k == 0)
  }

  ghost predicate NotePcOk(s: Sys) {
    match s.notePc
    case Draining => s.complete == []
    case AtRange(pos) => AtSeg(s) && pos <= |s.segs[s.noteSeg].list|
    case PollLooking(pos) => AtPos(s, pos) && WaitAt(s, pos).rem > 0
    case PollResetting(pos, id) => AtPos(s, pos) && WaitAt(s, pos).rem > 0 && WaitAt(s, pos).Covers(id)
    case PollChecked(pos) => AtPos(s, pos)
    case Releasing => AtSeg(s)
    case Freeing => AtSeg(s) && s.complete != []
  }

  ghost predicate Shape(s: Sys) {
    ThreadsOk(s) && SegsOk(s) && CompleteOk(s) && NotePcOk(s)
  }

  ghost predicate Inv(s: Sys) {
    Accounts(s) && Shape(s)
  }

  // ---- The initial state -----------------------------------------------

  lemma InitInv(threads: nat, queues: seq<bool>, ranges: seq<(nat, nat)>, segs: nat)
    ensures Inv(Init(threads, queues, ranges, segs))
  {
    hide Accounts, AllObjects;
    InitAccounts(threads, queues, ranges, segs);
  }

  lemma InitAccounts(threads: nat, queues: seq<bool>, ranges: seq<(nat, nat)>, segs: nat)
    ensures Accounts(Init(threads, queues, ranges, segs))
  {
    hide AllObjects;
    var s := Init(threads, queues, ranges, segs);
    InitSums(threads, queues, ranges, segs);
    assert multiset(s.pool) + multiset{} == multiset(AllObjects());
  }

  lemma InitSums(threads: nat, queues: seq<bool>, ranges: seq<(nat, nat)>, segs: nat)
    ensures Ledger(Init(threads, queues, ranges, segs)) == multiset{}
    ensures Reqs(Init(threads, queues, ranges, segs)) == multiset{}
  {
    hide AllObjects;
    var s := Init(threads, queues, ranges, segs);
    SumNone(s.threads, PcLive);
    SumNone(s.segs, SegLive);
    SumNone(s.threads, PcReqs);
    SumNone(s.queues, QueueReqs);
    SumNone(s.pollers, PollerReqs);
  }

  // ---- Entries and frames ----------------------------------------------

  lemma ThreadEntry(s: Sys, t: nat)
    requires t < |s.threads|
    ensures PcLive(s.threads[t]) <= Ledger(s)
  {
    ThreadMoves(s, t, s.threads[t]);
  }

  lemma SegEntry(s: Sys, i: nat)
    requires i < |s.segs|
    ensures SegLive(s.segs[i]) <= Ledger(s)
  {
    SegMoves(s, i, s.segs[i]);
  }

  lemma ListEntry(s: Sys, i: nat, k: nat)
    requires i < |s.segs| && k < |s.segs[i].list|
    ensures s.segs[i].list[k] in Ledger(s)
  {
    SegEntry(s, i);
    assert s.segs[i].list[k] in multiset(s.segs[i].list);
  }

  lemma CompleteEntry(s: Sys, k: nat)
    requires k < |s.complete|
    ensures s.complete[k] in Ledger(s)
  {
    assert s.complete[k] in multiset(s.complete);
  }

  /** A change of the board alone leaves the ledger alone. */
  lemma BoardMoves(s: Sys, i: nat, board: Board)
    requires i < |s.segs|
    ensures Ledger(s.(segs := s.segs[i := s.segs[i].(board := board)])) == Ledger(s)
  {
    var g := s.segs[i].(board := board);
    SegMoves(s, i, g);
    assert SegLive(g) == SegLive(s.segs[i]);
  }

  /** A step that moves no wait and changes neither pool nor notes keeps the books if it keeps the
      balance of events and requests. */
  lemma BalanceRequests(s: Sys, s': Sys)
    requires Accounts(s) && Ledger(s') == Ledger(s)
    requires s'.pool == s.pool && s'.taken == s.taken && s'.retired == s.retired
    requires forall task :: task != TAG_NULL ==>
               s'.events[task] + Reqs(s)[task] == s.events[task] + Reqs(s')[task]
    ensures Accounts(s')
  {
    Balance(s, s', multiset{}, multiset{});
  }

  lemma PointwiseEvents(a: multiset<nat>, a': multiset<nat>, b: multiset<nat>, b': multiset<nat>)
    requires a' + b == a + b'
    ensures forall x :: a'[x] + b[x] == a[x] + b'[x]
  {
    forall x ensures a'[x] + b[x] == a[x] + b'[x] {
      assert (a' + b)[x] == (a + b')[x];
    }
  }

  lemma AddBoth<X>(a: multiset<X>, a': multiset<X>, b: multiset<X>, b': multiset<X>, r: multiset<X>)
    requires a' + b == a + b'
    ensures a' + (r + b) == a + (r + b')
  {
    forall x ensures (a' + (r + b))[x] == (a + (r + b'))[x] {
      assert (a' + b)[x] == (a + b')[x];
    }
  }

  /** A step that replaces one wait by another. */
  lemma BalanceOne(s: Sys, s': Sys, l: Live, l': Live)
    requires Accounts(s) && Moves(s, s', multiset{l}, multiset{l'}) && LiveOk(l')
    requires Reqs(s') == Reqs(s)
    requires s'.events + LiveTasks(l) == s.events + LiveTasks(l')
    requires multiset(s'.pool) + LiveObjs(l') == multiset(s.pool) + LiveObjs(l)
    requires s'.taken + LiveNotes(l) == s.taken + LiveNotes(l') && s'.retired == s.retired
    ensures Accounts(s')
  {
    hide Accounts, Moves, Reqs, LiveOk, LiveTasks, LiveObjs, LiveNotes;
    FoldsOne(l);
    FoldsOne(l');
    PointwiseEvents(s.events, s'.events, LiveTasks(l), LiveTasks(l'));
    AddBoth(s.taken, s'.taken, LiveNotes(l), LiveNotes(l'), s.retired);
    Balance(s, s', multiset{l}, multiset{l'});
  }

  /** A step that drops a wait from the ledger: its notifications retire, its object returns. */
  lemma BalanceOut(s: Sys, s': Sys, l: Live)
    requires Accounts(s) && Moves(s, s', multiset{l}, multiset{}) && LiveTasks(l) == multiset{}
    requires Reqs(s') == Reqs(s) && s'.events == s.events
    requires multiset(s'.pool) == multiset(s.pool) + LiveObjs(l)
    requires s'.taken == s.taken && s'.retired == s.retired + LiveNotes(l)
    ensures Accounts(s')
  {
    hide Accounts, Moves, Reqs, LiveOk, LiveTasks, LiveObjs, LiveNotes;
    FoldsOne(l);
    Balance(s, s', multiset{l}, multiset{});
  }

  lemma EntryOk(s: Sys, s': Sys, l: Live, l': Live)
    requires Accounts(s) && Moves(s, s', multiset{l}, multiset{l'})
    ensures LiveOk(l)
  {
    assert l in Ledger(s);
  }

  /** A step that adds a wait to the ledger. */
  lemma BalanceIn(s: Sys, s': Sys, l: Live)
    requires Accounts(s) && Moves(s, s', multiset{}, multiset{l}) && LiveOk(l) && l.Checking? && l.w.got == []
    requires Reqs(s') == Reqs(s) && s'.events == s.events && s'.pool == s.pool
    requires s'.taken == s.taken && s'.retired == s.retired
    ensures Accounts(s')
  {
    FoldsOne(l);
    assert LiveNotes(l) == multiset{};
    Balance(s, s', multiset{}, multiset{l});
  }

  lemma SameMoves(s: Sys, s': Sys, part: multiset<Live>)
    requires Moves(s, s', part, part)
    ensures Ledger(s') == Ledger(s)
  {
  }

  lemma SameLedger(s: Sys, s': Sys)
    requires s'.threads == s.threads && s'.segs == s.segs && s'.complete == s.complete
    ensures Ledger(s') == Ledger(s)
  {
  }

  lemma SameReqs(s: Sys, s': Sys)
    requires s'.threads == s.threads && s'.queues == s.queues && s'.pollers == s.pollers
    ensures Reqs(s') == Reqs(s)
  {
  }

  /** A thread moves on; nothing else that the ledger or the requests look at changes. */
  lemma ThreadSwap(s: Sys, s': Sys, t: nat, p: Pc)
    requires t < |s.threads| && s'.threads == s.threads[t := p]
    requires s'.segs == s.segs && s'.complete == s.complete && s'.queues == s.queues && s'.pollers == s.pollers
    requires PcReqs(s.threads[t]) == PcReqs(p) == multiset{}
    ensures Moves(s, s', PcLive(s.threads[t]), PcLive(p)) && Reqs(s') == Reqs(s)
  {
    hide PcLive, PcReqs;
    var mid := s.(threads := s.threads[t := p]);
    ThreadMoves(s, t, p);
    ThreadReqs(s, t, p);
    SameLedger(mid, s');
    SameReqs(mid, s');
  }

  lemma OneNote(taken: multiset<Note>, got: seq<Note>, n: Note)
    ensures taken + multiset{n} + multiset(got) == taken + multiset(got + [n])
  {
  }

  /** Decreasing an event that the books say is owed never underflows. */
  lemma EventOwed(s: Sys, l: Live)
    requires Accounts(s) && l in Ledger(s) && (l.Charged? || l.Parked?) && l.w.task != TAG_NULL
    ensures s.events[l.w.task] >= 1
  {
    FoldShare(Ledger(s), l, LiveTasks);
    assert LiveTasks(l)[l.w.task] == 1;
  }

  /** What leaves one place arrives in another. */
  lemma Arrives<X>(m: multiset<X>, part: multiset<X>, x: multiset<X>)
    requires x <= m && part <= m - x
    ensures m - x - part + (part + x) == m
  {
  }

  lemma SplitsOff<X>(m: multiset<X>, part: multiset<X>, rest: multiset<X>, x: multiset<X>)
    requires part <= m && part == rest + x
    ensures m - part + rest + x == m
  {
  }

  // ---- Accounts: submissions, requests and queue pollers ----------------

  lemma BeginSubmitAccounts(s: Sys, t: nat, task: nat, n: nat, queue: nat)
    requires Accounts(s)
    requires ThreadIdle(s, t) && task != TAG_NULL
    ensures Accounts(BeginSubmitStep(s, t, task, n, queue))
  {
    hide Accounts, Ledger, Reqs;
    var p := Submitting(task, n, queue);
    var s' := BeginSubmitStep(s, t, task, n, queue);
    ThreadMoves(s, t, p);
    ThreadReqs(s, t, p);
    SameLedger(Next(s, t, p), s');
    SameReqs(Next(s, t, p), s');
    BalanceRequests(s, s');
  }

  lemma SameAgain<X>(m: multiset<X>, part: multiset<X>)
    requires part <= m
    ensures m - part + part == m && m - multiset{} + multiset{} == m
  {
  }

  lemma SubmitReqs(s: Sys, t: nat)
    requires t < |s.threads| && s.threads[t].Submitting? && s.threads[t].queue < |s.queues|
    ensures Reqs(SubmitStep(s, t, true)) == Reqs(s)
  {
    hide Reqs, Ledger, Copies;
    var p := s.threads[t];
    var s' := SubmitStep(s, t, true);
    var mid := Next(s, t, Idle);
    var q := s.queues[p.queue];
    ThreadReqs(s, t, Idle);
    QueueMoves(mid, p.queue, s'.queues[p.queue]);
    assert Reqs(mid) == Reqs(s) - Copies(p.task, p.n);
    Arrives(Reqs(s), QueueReqs(q), Copies(p.task, p.n));
    assert QueueReqs(s'.queues[p.queue]) == QueueReqs(q) + Copies(p.task, p.n);
  }

  lemma SubmitLedger(s: Sys, t: nat, ok: bool)
    requires t < |s.threads| && s.threads[t].Submitting? && s.threads[t].queue < |s.queues|
    ensures Ledger(SubmitStep(s, t, ok)) == Ledger(s)
  {
    hide Ledger, Copies;
    var mid := Next(s, t, SubmitStep(s, t, ok).threads[t]);
    ThreadMoves(s, t, SubmitStep(s, t, ok).threads[t]);
    SameLedger(mid, SubmitStep(s, t, ok));
  }

  lemma SubmitAccounts(s: Sys, t: nat, ok: bool)
    requires Accounts(s)
    requires t < |s.threads| && s.threads[t].Submitting? && s.threads[t].queue < |s.queues|
    ensures Accounts(SubmitStep(s, t, ok))
  {
    hide Accounts, Ledger, Reqs;
    var p := s.threads[t];
    var s' := SubmitStep(s, t, ok);
    if ok {
      SubmitReqs(s, t);
    } else {
      ThreadMoves(s, t, RollingBack(p.task, p.n));
      ThreadReqs(s, t, RollingBack(p.task, p.n));
      SameAgain(Reqs(s), Copies(p.task, p.n));
    }
    SubmitLedger(s, t, ok);
    BalanceRequests(s, s');
  }

  lemma EventsCover(s: Sys, task: nat)
    requires Accounts(s) && task != TAG_NULL
    ensures s.events[task] >= Reqs(s)[task]
  {
  }

  lemma RollBackBooks(s: Sys, t: nat)
    requires t < |s.threads| && s.threads[t].RollingBack?
    ensures var c := Copies(s.threads[t].task, s.threads[t].n);
            c <= Reqs(s) && Reqs(RollBackStep(s, t)) == Reqs(s) - c
    ensures Ledger(RollBackStep(s, t)) == Ledger(s)
  {
    hide Copies, Ledger, Reqs;
    ThreadMoves(s, t, Idle);
    ThreadReqs(s, t, Idle);
    SameLedger(Next(s, t, Idle), RollBackStep(s, t));
    SameReqs(Next(s, t, Idle), RollBackStep(s, t));
  }

  lemma RollBackAccounts(s: Sys, t: nat)
    requires Accounts(s)
    requires t < |s.threads| && s.threads[t].RollingBack? && s.threads[t].task != TAG_NULL
    ensures s.events[s.threads[t].task] >= s.threads[t].n
    ensures Accounts(RollBackStep(s, t))
  {
    hide Accounts, Ledger, Reqs;
    var p := s.threads[t];
    RollBackBooks(s, t);
    EventsCover(s, p.task);
    assert Reqs(s)[p.task] >= Copies(p.task, p.n)[p.task];
    BalanceRequests(s, RollBackStep(s, t));
  }

  lemma ForeignPostAccounts(s: Sys, queue: nat)
    requires Accounts(s)
    requires queue < |s.queues|
    ensures Accounts(ForeignPostStep(s, queue))
  {
    QueueMoves(s, queue, ForeignPostStep(s, queue).queues[queue]);
    BalanceRequests(s, ForeignPostStep(s, queue));
  }

  lemma DeliverKeeps(q: Queue, q': Queue, tag: nat)
    requires tag in q.posted && q'.posted == q.posted - multiset{tag} && q'.done == q.done + [tag]
    ensures QueueReqs(q') == QueueReqs(q)
  {
  }

  lemma DeliverAccounts(s: Sys, queue: nat, tag: nat)
    requires Accounts(s)
    requires queue < |s.queues| && tag in s.queues[queue].posted
    ensures Accounts(DeliverStep(s, queue, tag))
  {
    hide Accounts, Ledger, Reqs;
    var s' := DeliverStep(s, queue, tag);
    var q, q' := s.queues[queue], s'.queues[queue];
    QueueMoves(s, queue, q');
    DeliverKeeps(q, q', tag);
    SameAgain(Reqs(s), QueueReqs(q));
    SameLedger(s, s');
    BalanceRequests(s, s');
  }

  lemma FetchReqs(s: Sys, p: nat, k: nat)
    requires p < |s.pollers| && s.pollers[p].pc.AtQueue? && s.pollers[p].queue < |s.queues|
    requires k <= |s.queues[s.pollers[p].queue].done| && s.queues[s.pollers[p].queue].valid
    ensures Reqs(FetchStep(s, p, k)) == Reqs(s)
  {
    hide Reqs, Ledger;
    var s' := FetchStep(s, p, k);
    var i := s.pollers[p].queue;
    var q := s.queues[i];
    var mid := s.(queues := s.queues[i := s'.queues[i]]);
    QueueMoves(s, i, s'.queues[i]);
    PollerMoves(mid, p, s'.pollers[p]);
    assert q.done == q.done[..k] + q.done[k..];
    assert QueueReqs(q) == QueueReqs(s'.queues[i]) + PollerReqs(s'.pollers[p]);
    SplitsOff(Reqs(s), QueueReqs(q), QueueReqs(s'.queues[i]), PollerReqs(s'.pollers[p]));
    SameAgain(Reqs(mid), multiset{});
  }

  lemma FetchAccounts(s: Sys, p: nat, k: nat)
    requires Accounts(s)
    requires p < |s.pollers| && s.pollers[p].pc.AtQueue? && s.pollers[p].queue < |s.queues| && k <= |s.queues[s.pollers[p].queue].done|
    ensures Accounts(FetchStep(s, p, k))
  {
    hide Accounts, Ledger, Reqs;
    var s' := FetchStep(s, p, k);
    var i := s.pollers[p].queue;
    if s.queues[i].valid {
      FetchReqs(s, p, k);
    } else {
      PollerMoves(s, p, s'.pollers[p]);
      SameAgain(Reqs(s), multiset{});
    }
    SameLedger(s, s');
    BalanceRequests(s, s');
  }

  lemma TakesOne<X>(m: multiset<X>, part: multiset<X>, rest: multiset<X>, x: X)
    requires part <= m && part == multiset{x} + rest
    ensures x in m && m - part + rest == m - multiset{x}
  {
  }

  lemma LowerBooks(s: Sys, p: nat)
    requires p < |s.pollers| && s.pollers[p].pc.InBatch?
    ensures var tags := s.pollers[p].pc.tags;
            if tags == [] then Reqs(LowerStep(s, p)) == Reqs(s)
            else tags[0] in Reqs(s) && Reqs(LowerStep(s, p)) == Reqs(s) - multiset{tags[0]}
  {
    hide Ledger, Reqs;
    var s' := LowerStep(s, p);
    var tags := s.pollers[p].pc.tags;
    PollerMoves(s, p, s'.pollers[p]);
    SameReqs(s.(pollers := s'.pollers), s');
    if tags == [] {
      SameAgain(Reqs(s), multiset{});
    } else {
      assert tags == [tags[0]] + tags[1..];
      TakesOne(Reqs(s), PollerReqs(s.pollers[p]), PollerReqs(s'.pollers[p]), tags[0]);
    }
  }

  lemma LowerAccounts(s: Sys, p: nat)
    requires Accounts(s)
    requires p < |s.pollers| && s.pollers[p].pc.InBatch?
    ensures var tags := s.pollers[p].pc.tags;
            tags != [] && tags[0] != TAG_NULL ==> s.events[tags[0]] >= 1
    ensures Accounts(LowerStep(s, p))
  {
    hide Accounts, Ledger, Reqs;
    var s' := LowerStep(s, p);
    var tags := s.pollers[p].pc.tags;
    LowerBooks(s, p);
    if tags != [] && tags[0] != TAG_NULL {
      EventsCover(s, tags[0]);
    }
    SameLedger(s, s');
    BalanceRequests(s, s');
  }

  // ---- Accounts: waits in the hands of a thread -------------------------

  lemma BeginWaitAccounts(s: Sys, t: nat, task: nat, seg: nat, first: nat, num: nat, keep: bool)
    requires Accounts(s)
    requires ThreadIdle(s, t) && task != TAG_NULL
    ensures Accounts(BeginWaitStep(s, t, task, seg, first, num, keep))
  {
    hide Accounts, Moves, Ledger, Reqs, ParkedBuffer;
    if num > 0 {
      var w := NewWait(task, seg, first, num, keep);
      ThreadSwap(s, BeginWaitStep(s, t, task, seg, first, num, keep), t, Looking(w));
      assert LiveOk(Checking(w));
      BalanceIn(s, BeginWaitStep(s, t, task, seg, first, num, keep), Checking(w));
    }
  }

  lemma LookAccounts(s: Sys, t: nat, p: Pc)
    requires Accounts(s)
    requires t < |s.threads| && s.threads[t].Looking? && PcLive(p) == PcLive(s.threads[t]) && PcReqs(p) == multiset{}
    ensures Accounts(Next(s, t, p))
  {
    hide Accounts, Moves, Ledger, Reqs, WaitOk, EarlyBuffer, ParkedBuffer;
    ThreadSwap(s, Next(s, t, p), t, p);
    SameMoves(s, Next(s, t, p), PcLive(p));
    BalanceRequests(s, Next(s, t, p));
  }

  lemma ResetShares(s: Sys, t: nat)
    requires t < |s.threads| && s.threads[t].Resetting? && s.threads[t].w.seg < |s.segs|
    ensures var w, id := s.threads[t].w, s.threads[t].id;
            var v := At(s.segs[w.seg].board, id);
            && PcLive(s.threads[t]) == multiset{Checking(w)}
            && PcLive(ResetStep(s, t).threads[t]) == multiset{Checking(if v == 0 then w else TakeNote(w, id, v, false))}
            && PcReqs(s.threads[t]) == multiset{} == PcReqs(ResetStep(s, t).threads[t])
  {
    hide TakeNote;
  }

  lemma ResetMoves(s: Sys, t: nat)
    requires t < |s.threads| && s.threads[t].Resetting? && s.threads[t].w.seg < |s.segs|
    ensures var w, id := s.threads[t].w, s.threads[t].id;
            var v := At(s.segs[w.seg].board, id);
            Moves(s, ResetStep(s, t), multiset{Checking(w)},
                  multiset{Checking(if v == 0 then w else TakeNote(w, id, v, false))})
    ensures Reqs(ResetStep(s, t)) == Reqs(s)
  {
    hide TakeNote, Ledger, Reqs, PcLive, PcReqs;
    var w, id := s.threads[t].w, s.threads[t].id;
    var z := Zeroed(s, w.seg, id);
    BoardMoves(s, w.seg, z.segs[w.seg].board);
    SameLedger(s.(segs := z.segs), z);
    SameReqs(s, z);
    ResetShares(s, t);
    ThreadSwap(z, ResetStep(s, t), t, ResetStep(s, t).threads[t]);
  }

  lemma ResetAccounts(s: Sys, t: nat)
    requires Accounts(s)
    requires t < |s.threads| && s.threads[t].Resetting? && PcOk(s, s.threads[t])
    ensures Accounts(ResetStep(s, t))
  {
    hide Accounts, Moves, Ledger, Reqs, WaitOk, EarlyBuffer, ParkedBuffer;
    var w, id := s.threads[t].w, s.threads[t].id;
    var v := At(s.segs[w.seg].board, id);
    var s' := ResetStep(s, t);
    var w' := if v == 0 then w else TakeNote(w, id, v, false);
    ResetMoves(s, t);
    EntryOk(s, s', Checking(w), Checking(w'));
    if v != 0 {
      TakeEarly(w, id, v);
      OneNote(s.taken, w.got, Note(w.seg, id, v));
    }
    BalanceOne(s, s', Checking(w), Checking(w'));
  }

  lemma ReturnAccounts(s: Sys, t: nat)
    requires Accounts(s)
    requires t < |s.threads| && s.threads[t].Checked?
    ensures Accounts(ReturnStep(s, t))
  {
    hide Accounts, Moves, Ledger, Reqs, WaitOk, EarlyBuffer, ParkedBuffer;
    ThreadSwap(s, ReturnStep(s, t), t, Idle);
    BalanceOut(s, ReturnStep(s, t), Checking(s.threads[t].w));
  }

  lemma RaiseAccounts(s: Sys, t: nat)
    requires Accounts(s)
    requires t < |s.threads| && s.threads[t].Checked? && s.threads[t].w.rem > 0
    ensures Accounts(RaiseStep(s, t))
  {
    hide Accounts, Moves, Ledger, Reqs, WaitOk, EarlyBuffer, ParkedBuffer;
    var w := s.threads[t].w;
    ThreadSwap(s, RaiseStep(s, t), t, Raised(w));
    EntryOk(s, RaiseStep(s, t), Checking(w), Charged(w));
    BalanceOne(s, RaiseStep(s, t), Checking(w), Charged(w));
  }

  lemma ConstructedOk(w: Wait, garbage: nat, obj: nat)
    requires LiveOk(Charged(w))
    ensures LiveOk(Parked(w.(value := garbage), obj))
  {
    if w.num == 1 {
      assert w.got == [];
    }
  }

  lemma PoolFront(pool: seq<nat>)
    requires pool != []
    ensures multiset(pool[1..]) + multiset{pool[0]} == multiset(pool)
  {
    assert pool == [pool[0]] + pool[1..];
  }

  lemma AllocateAccounts(s: Sys, t: nat, garbage: nat)
    requires Accounts(s)
    requires t < |s.threads| && s.threads[t].Raised? && s.pool != []
    ensures Accounts(AllocateStep(s, t, garbage))
  {
    hide Accounts, Moves, Ledger, Reqs, WaitOk, EarlyBuffer, ParkedBuffer;
    var w := s.threads[t].w;
    var l := Parked(w.(value := garbage), s.pool[0]);
    ThreadSwap(s, AllocateStep(s, t, garbage), t, Publishing(l.w, l.obj));
    EntryOk(s, AllocateStep(s, t, garbage), Charged(w), l);
    ConstructedOk(w, garbage, s.pool[0]);
    PoolFront(s.pool);
    BalanceOne(s, AllocateStep(s, t, garbage), Charged(w), l);
  }

  lemma PcShares(p: Pc)
    ensures PcLive(Idle) == multiset{} && PcReqs(Idle) == multiset{}
    ensures p.Publishing? ==> PcLive(p) == multiset{Parked(p.w, p.obj)} && PcReqs(p) == multiset{}
  {
  }

  lemma QueueGrows(g: Seg, l: Live)
    ensures SegLive(g.(queue := g.queue + [l])) == SegLive(g) + multiset{l}
  {
  }

  lemma PublishMoves(s: Sys, t: nat)
    requires t < |s.threads| && s.threads[t].Publishing? && s.threads[t].w.seg < |s.segs|
    ensures Ledger(PublishStep(s, t)) == Ledger(s) && Reqs(PublishStep(s, t)) == Reqs(s)
  {
    hide PcLive, PcReqs, Ledger, Reqs;
    var p := s.threads[t];
    var mid := Next(s, t, Idle);
    var l := Parked(p.w, p.obj);
    var g := s.segs[p.w.seg];
    var g' := g.(queue := g.queue + [l]);
    PcShares(p);
    ThreadSwap(s, mid, t, Idle);
    SegMoves(mid, p.w.seg, g');
    Arrives(Ledger(s), SegLive(g), multiset{l});
    QueueGrows(g, l);
    SameReqs(mid, PublishStep(s, t));
  }

  lemma PublishAccounts(s: Sys, t: nat)
    requires Accounts(s)
    requires t < |s.threads| && s.threads[t].Publishing? && s.threads[t].w.seg < |s.segs|
    ensures Accounts(PublishStep(s, t))
  {
    hide Accounts, Moves, Ledger, Reqs, WaitOk, EarlyBuffer, ParkedBuffer;
    PublishMoves(s, t);
    BalanceRequests(s, PublishStep(s, t));
  }

  // ---- Accounts: waits in the hands of the notification poller ----------

  lemma NotifyAccounts(s: Sys, seg: nat, id: nat, value: nat)
    requires Accounts(s)
    requires seg < |s.segs|
    ensures Accounts(NotifyStep(s, seg, id, value))
  {
    BoardMoves(s, seg, NotifyStep(s, seg, id, value).segs[seg].board);
    BalanceRequests(s, NotifyStep(s, seg, id, value));
  }

  lemma DrainAccounts(s: Sys)
    requires Accounts(s) && AtSeg(s)
    ensures Accounts(DrainStep(s))
  {
    hide Ledger, SegLive, Accounts, Reqs;
    var s' := DrainStep(s);
    DrainLedger(s);
    DrainRequests(s);
    BalanceRequests(s, s');
  }

  lemma SegJoins(g: Seg)
    ensures SegLive(g.(queue := [], list := g.list + g.queue)) == SegLive(g)
  {
  }

  lemma DrainLedger(s: Sys)
    requires AtSeg(s)
    ensures Moves(s, DrainStep(s), SegLive(s.segs[s.noteSeg]), SegLive(s.segs[s.noteSeg]))
  {
    SegMoves(s, s.noteSeg, DrainStep(s).segs[s.noteSeg]);
    SegJoins(s.segs[s.noteSeg]);
  }

  lemma DrainRequests(s: Sys)
    requires AtSeg(s)
    ensures Reqs(DrainStep(s)) == Reqs(s)
  {
  }

  lemma PollPcAccounts(s: Sys, p: NotePc)
    requires Accounts(s)
    ensures Accounts(s.(notePc := p))
  {
    BalanceRequests(s, s.(notePc := p));
  }

  lemma ListMoves(s: Sys, i: nat, pos: nat, l: Live)
    requires i < |s.segs| && pos < |s.segs[i].list|
    ensures Moves(s, s.(segs := s.segs[i := s.segs[i].(list := s.segs[i].list[pos := l])]),
                  multiset{s.segs[i].list[pos]}, multiset{l})
  {
    var g := s.segs[i];
    var g' := g.(list := g.list[pos := l]);
    SegMoves(s, i, g');
    ListEntry(s, i, pos);
    assert SegLive(g') == SegLive(g) - multiset{g.list[pos]} + multiset{l};
    assert g.list[pos] in SegLive(g);
    MovesPart(Ledger(s), SegLive(g), g.list[pos], l);
  }

  lemma MovesPart(m: multiset<Live>, part: multiset<Live>, l: Live, l': Live)
    requires part <= m && l in part
    ensures m - part + (part - multiset{l} + multiset{l'}) == m - multiset{l} + multiset{l'}
  {
  }

  /** The poller takes a notification for the range under its iterator. */
  lemma PollTakeMoves(s: Sys, pos: nat, id: nat, w: Wait)
    requires AtPos(s, pos)
    ensures var z := Zeroed(s, s.noteSeg, id);
            var s' := SetSeg(z, SetWait(z.segs[s.noteSeg], pos, w));
            var l := s.segs[s.noteSeg].list[pos];
            Moves(s, s', multiset{l}, multiset{WithWait(l, w)}) && Reqs(s') == Reqs(s)
  {
    var z := Zeroed(s, s.noteSeg, id);
    BoardMoves(s, s.noteSeg, z.segs[s.noteSeg].board);
    SameLedger(s.(segs := z.segs), z);
    ListMoves(z, s.noteSeg, pos, WithWait(s.segs[s.noteSeg].list[pos], w));
    SameReqs(s, SetSeg(z, SetWait(z.segs[s.noteSeg], pos, w)));
  }

  lemma PollResetAccounts(s: Sys)
    requires Accounts(s) && s.notePc.PollResetting? && AtPos(s, s.notePc.pos)
    requires WaitAt(s, s.notePc.pos).rem > 0 && WaitAt(s, s.notePc.pos).Covers(s.notePc.id)
    requires s.segs[s.noteSeg].list[s.notePc.pos].Parked? && WaitAt(s, s.notePc.pos).seg == s.noteSeg
    ensures Accounts(PollResetStep(s))
  {
    var pos, id := s.notePc.pos, s.notePc.id;
    var l := s.segs[s.noteSeg].list[pos];
    var v := At(s.segs[s.noteSeg].board, id);
    var z := Zeroed(s, s.noteSeg, id);
    if v == 0 {
      BoardMoves(s, s.noteSeg, z.segs[s.noteSeg].board);
      SameLedger(s.(segs := z.segs), PollResetStep(s));
      SameReqs(s, PollResetStep(s));
      BalanceRequests(s, PollResetStep(s));
    } else {
      var w' := TakeNote(l.w, id, v, true);
      var s' := SetSeg(z, SetWait(z.segs[s.noteSeg], pos, w'));
      PollTakeMoves(s, pos, id, w');
      ListEntry(s, s.noteSeg, pos);
      PollTakeAccounts(s, s', l, id, v);
      PollPcAccounts(s', PollResetStep(s).notePc);
    }
  }

  lemma PollTakeAccounts(s: Sys, s': Sys, l: Live, id: nat, v: nat)
    requires Accounts(s) && l in Ledger(s) && l.Parked? && l.w.rem > 0 && l.w.Covers(id) && v != 0
    requires Moves(s, s', multiset{l}, multiset{WithWait(l, TakeNote(l.w, id, v, true))}) && Reqs(s') == Reqs(s)
    requires s'.events == s.events && s'.pool == s.pool && s'.retired == s.retired
    requires s'.taken == s.taken + multiset{Note(l.w.seg, id, v)}
    ensures Accounts(s')
  {
    hide Accounts, Moves, Ledger, Reqs, WaitOk, EarlyBuffer, ParkedBuffer;
    EntryOk(s, s', l, WithWait(l, TakeNote(l.w, id, v, true)));
    TakePolled(l.w, id, v);
    OneNote(s.taken, l.w.got, Note(l.w.seg, id, v));
    BalanceOne(s, s', l, WithWait(l, TakeNote(l.w, id, v, true)));
  }

  lemma EraseMoves(list: seq<Live>, pos: nat)
    requires pos < |list|
    ensures multiset(list[..pos] + list[pos + 1..]) == multiset(list) - multiset{list[pos]}
  {
    assert list == list[..pos] + [list[pos]] + list[pos + 1..];
  }

  lemma PollEndMoves(s: Sys, l': Live)
    requires s.notePc.PollChecked? && AtPos(s, s.notePc.pos)
    requires l' == WithWait(s.segs[s.noteSeg].list[s.notePc.pos], EndPoll(WaitAt(s, s.notePc.pos)))
    ensures Moves(s, PollEndStep(s), multiset{s.segs[s.noteSeg].list[s.notePc.pos]}, multiset{l'})
  {
    hide Ledger;
    var pos := s.notePc.pos;
    var g := s.segs[s.noteSeg];
    if l'.w.rem == 0 {
      EraseLedger(s, pos, l');
      SameLedger(SetSeg(s, g.(list := g.list[..pos] + g.list[pos + 1..])).(complete := s.complete + [l']), PollEndStep(s));
    } else {
      ListMoves(s, s.noteSeg, pos, l');
      SameLedger(SetSeg(s, g.(list := g.list[pos := l'])), PollEndStep(s));
    }
  }

  lemma PollEndAccounts(s: Sys)
    requires Accounts(s) && s.notePc.PollChecked? && AtPos(s, s.notePc.pos)
    requires s.segs[s.noteSeg].list[s.notePc.pos].Parked?
    ensures Accounts(PollEndStep(s))
  {
    hide Accounts, Ledger, Reqs, WaitOk, ParkedBuffer, EarlyBuffer;
    var pos := s.notePc.pos;
    var l := s.segs[s.noteSeg].list[pos];
    var l' := WithWait(l, EndPoll(l.w));
    var s' := PollEndStep(s);
    PollEndMoves(s, l');
    EntryOk(s, s', l, l');
    EndPollBuffer(l.w);
    SameReqs(s, s');
    BalanceOne(s, s', l, l');
  }

  lemma EraseLedger(s: Sys, pos: nat, l': Live)
    requires AtPos(s, pos)
    ensures var g := s.segs[s.noteSeg];
            Moves(s, SetSeg(s, g.(list := g.list[..pos] + g.list[pos + 1..])).(complete := s.complete + [l']),
                  multiset{g.list[pos]}, multiset{l'})
  {
    hide Ledger, SegLive;
    var g := s.segs[s.noteSeg];
    var g' := g.(list := g.list[..pos] + g.list[pos + 1..]);
    var l := g.list[pos];
    SegErases(g, pos);
    SegMoves(s, s.noteSeg, g');
    ListEntry(s, s.noteSeg, pos);
    Leaves(Ledger(s), SegLive(g), l);
    CompleteGrows(SetSeg(s, g'), l');
  }

  lemma SegErases(g: Seg, pos: nat)
    requires pos < |g.list|
    ensures g.list[pos] in SegLive(g)
    ensures SegLive(g.(list := g.list[..pos] + g.list[pos + 1..])) == SegLive(g) - multiset{g.list[pos]}
  {
    EraseMoves(g.list, pos);
  }

  lemma Leaves(m: multiset<Live>, part: multiset<Live>, l: Live)
    requires part <= m && l in part
    ensures m - part + (part - multiset{l}) == m - multiset{l}
  {
  }

  lemma CompleteGrows(s: Sys, l: Live)
    ensures Ledger(s.(complete := s.complete + [l])) == Ledger(s) + multiset{l}
  {
    var rest := Sum(s.threads, PcLive) + Sum(s.segs, SegLive);
    assert multiset(s.complete + [l]) == multiset(s.complete) + multiset{l};
    assert rest + (multiset(s.complete) + multiset{l}) == rest + multiset(s.complete) + multiset{l};
  }

  lemma CompleteShrinks(s: Sys)
    requires s.complete != []
    ensures s.complete[0] in Ledger(s)
    ensures Ledger(s.(complete := s.complete[1..])) == Ledger(s) - multiset{s.complete[0]}
  {
    var rest := Sum(s.threads, PcLive) + Sum(s.segs, SegLive);
    CompleteEntry(s, 0);
    assert s.complete == [s.complete[0]] + s.complete[1..];
    assert rest + (multiset{s.complete[0]} + multiset(s.complete[1..])) - multiset{s.complete[0]}
           == rest + multiset(s.complete[1..]);
  }

  lemma CompleteMoves(s: Sys, l: Live)
    requires s.complete != []
    ensures Moves(s, s.(complete := s.complete[0 := l]), multiset{s.complete[0]}, multiset{l})
  {
    CompleteEntry(s, 0);
  }

  lemma CompleteAccounts(s: Sys)
    requires Accounts(s) && (s.complete != [] ==> s.complete[0].Parked? && s.complete[0].w.rem == 0)
    ensures s.complete != [] ==> s.events[s.complete[0].w.task] >= 1
    ensures Accounts(CompleteStep(s))
  {
    hide Accounts, Ledger, Reqs, WaitOk, ParkedBuffer;
    var s' := CompleteStep(s);
    if s.complete == [] {
      SameLedger(s, s');
      SameReqs(s, s');
      BalanceRequests(s, s');
    } else {
      var l := s.complete[0];
      CompleteMoves(s, Completed(l.w, l.obj));
      SameLedger(s.(complete := s.complete[0 := Completed(l.w, l.obj)]), s');
      SameReqs(s, s');
      EntryOk(s, s', l, Completed(l.w, l.obj));
      EventOwed(s, l);
      BalanceOne(s, s', l, Completed(l.w, l.obj));
    }
  }

  lemma FreeAccounts(s: Sys)
    requires Accounts(s) && s.complete != [] && s.complete[0].Completed?
    ensures Accounts(FreeStep(s))
  {
    hide Accounts, Ledger, Reqs, WaitOk, ParkedBuffer;
    var s' := FreeStep(s);
    var l := s.complete[0];
    CompleteShrinks(s);
    SameLedger(s.(complete := s.complete[1..]), s');
    SameReqs(s, s');
    BalanceOut(s, s', l);
  }

  // ---- Shape -----------------------------------------------------------

  /** Same segments up to their boards, same poller, same completed ranges. */
  ghost predicate SamePlaces(s: Sys, s': Sys) {
    && |s'.queues| == |s.queues| && |s'.segs| == |s.segs|
    && (forall i :: 0 <= i < |s.segs| ==> s'.segs[i].queue == s.segs[i].queue && s'.segs[i].list == s.segs[i].list)
    && s'.notePc == s.notePc && s'.noteSeg == s.noteSeg && s'.complete == s.complete
  }

  lemma ShapeFrame(s: Sys, s': Sys)
    requires Shape(s) && SamePlaces(s, s') && ThreadsOk(s')
    ensures Shape(s')
  {
    forall i | 0 <= i < |s'.segs| ensures SegOk(s', i) {
      assert SegOk(s, i);
    }
  }

  lemma ThreadShape(s: Sys, s': Sys, t: nat, p: Pc)
    requires Shape(s) && SamePlaces(s, s')
    requires t < |s.threads| && s'.threads == s.threads[t := p] && PcOk(s', p)
    ensures Shape(s')
  {
    forall u | 0 <= u < |s'.threads| ensures PcOk(s', s'.threads[u]) {
      assert PcOk(s, s.threads[u]);
    }
    ShapeFrame(s, s');
  }

  lemma OtherShape(s: Sys, s': Sys)
    requires Shape(s) && SamePlaces(s, s') && s'.threads == s.threads
    ensures Shape(s')
  {
    forall u | 0 <= u < |s'.threads| ensures PcOk(s', s'.threads[u]) {
      assert PcOk(s, s.threads[u]);
    }
    ShapeFrame(s, s');
  }

  lemma ThreadWaitOk(s: Sys, t: nat)
    requires Accounts(s) && t < |s.threads|
    ensures forall l :: l in PcLive(s.threads[t]) ==> LiveOk(l)
  {
    hide LiveOk;
    ThreadEntry(s, t);
  }

  lemma ResetShape(s: Sys, t: nat)
    requires Accounts(s) && Shape(s)
    requires t < |s.threads| && s.threads[t].Resetting?
    ensures Shape(ResetStep(s, t))
  {
    hide Accounts, Shape;
    ThreadPc(s, t);
    ThreadShape(s, ResetStep(s, t), t, ResetStep(s, t).threads[t]);
  }

  lemma ThreadPc(s: Sys, t: nat)
    requires Shape(s) && t < |s.threads|
    ensures PcOk(s, s.threads[t])
  {
  }

  lemma AllocateShape(s: Sys, t: nat, garbage: nat)
    requires Accounts(s) && Shape(s)
    requires t < |s.threads| && s.threads[t].Raised? && s.pool != []
    ensures Shape(AllocateStep(s, t, garbage))
  {
    hide Accounts, Shape;
    ThreadPc(s, t);
    ThreadWaitOk(s, t);
    assert Charged(s.threads[t].w) in PcLive(s.threads[t]);
    ThreadShape(s, AllocateStep(s, t, garbage), t, AllocateStep(s, t, garbage).threads[t]);
  }

  lemma PublishShape(s: Sys, t: nat)
    requires Shape(s)
    requires t < |s.threads| && s.threads[t].Publishing? && s.threads[t].w.seg < |s.segs|
    ensures Shape(PublishStep(s, t))
  {
    var s' := PublishStep(s, t);
    var p := s.threads[t];
    assert PcOk(s, p);
    forall u | 0 <= u < |s'.threads| ensures PcOk(s', s'.threads[u]) {
      assert PcOk(s, s.threads[u]);
    }
    forall i | 0 <= i < |s'.segs| ensures SegOk(s', i) {
      assert SegOk(s, i);
    }
  }

  // ---- Shape: the notification poller ------------------------------------

  lemma ThreadsFrame(s: Sys, s': Sys)
    requires ThreadsOk(s) && s'.threads == s.threads && |s'.queues| == |s.queues| && |s'.segs| == |s.segs|
    ensures ThreadsOk(s')
  {
    forall u | 0 <= u < |s'.threads| ensures PcOk(s', s'.threads[u]) {
      assert PcOk(s, s.threads[u]);
    }
  }

  lemma DrainShape(s: Sys)
    requires Shape(s) && s.notePc.Draining? && AtSeg(s)
    ensures Shape(DrainStep(s))
  {
    var s' := DrainStep(s);
    ThreadsFrame(s, s');
    forall i | 0 <= i < |s'.segs| ensures SegOk(s', i) {
      assert SegOk(s, i);
      if i == s.noteSeg {
        forall k | 0 <= k < |s'.segs[i].list| ensures Pending(s'.segs[i].list[k], i) {
          if k >= |s.segs[i].list| {
            assert s'.segs[i].list[k] in s.segs[i].queue;
          }
        }
      }
    }
  }

  /** The poller's program counter moves while no check of a range is open. */
  lemma PollPcShape(s: Sys, p: NotePc)
    requires Shape(s) && (s.notePc.AtRange? || s.notePc.PollLooking? || s.notePc.PollResetting?)
    requires !p.Draining? && !p.Freeing? && NotePcOk(s.(notePc := p))
    ensures Shape(s.(notePc := p))
  {
    var s' := s.(notePc := p);
    ThreadsFrame(s, s');
    forall i | 0 <= i < |s'.segs| ensures SegOk(s', i) {
      assert SegOk(s, i);
    }
  }

  lemma VisitShape(s: Sys)
    requires Shape(s) && s.notePc.AtRange? && AtSeg(s)
    ensures Shape(VisitStep(s))
  {
    assert SegOk(s, s.noteSeg);
    PollPcShape(s, VisitStep(s).notePc);
  }

  /** The entry under the iterator has just been updated and its check is over or goes on. */
  lemma PollTakeShape(s: Sys, s': Sys, pos: nat, w: Wait)
    requires Shape(s) && s.notePc.PollResetting? && s.notePc.pos == pos && AtPos(s, pos)
    requires s'.threads == s.threads && s'.noteSeg == s.noteSeg && s'.complete == s.complete
    requires |s'.queues| == |s.queues| && |s'.segs| == |s.segs|
    requires forall i :: 0 <= i < |s.segs| && i != s.noteSeg ==> s'.segs[i] == s.segs[i]
    requires s'.segs[s.noteSeg].queue == s.segs[s.noteSeg].queue
    requires s'.segs[s.noteSeg].list == s.segs[s.noteSeg].list[pos := WithWait(s.segs[s.noteSeg].list[pos], w)]
    requires w.seg == WaitAt(s, pos).seg
    requires s'.notePc == if w.rem > 0 then PollLooking(pos) else PollChecked(pos)
    ensures Shape(s')
  {
    assert SegOk(s, s.noteSeg);
    ThreadsFrame(s, s');
    forall i | 0 <= i < |s'.segs| ensures SegOk(s', i) {
      assert SegOk(s, i);
    }
  }

  lemma PollResetShape(s: Sys)
    requires Shape(s) && s.notePc.PollResetting? && AtPos(s, s.notePc.pos)
    ensures Shape(PollResetStep(s))
  {
    var pos, id := s.notePc.pos, s.notePc.id;
    var s' := PollResetStep(s);
    var v := At(s.segs[s.noteSeg].board, id);
    if v == 0 {
      var z := Zeroed(s, s.noteSeg, id);
      OtherShape(s, z);
      PollPcShape(z, PollChecked(pos));
    } else {
      PollTakeShape(s, s', pos, TakeNote(WaitAt(s, pos), id, v, true));
    }
  }

  lemma PollEndShape(s: Sys)
    requires Accounts(s) && Shape(s) && s.notePc.PollChecked? && AtPos(s, s.notePc.pos)
    ensures Shape(PollEndStep(s))
  {
    hide Accounts, WaitOk, EarlyBuffer, ParkedBuffer;
    var pos := s.notePc.pos;
    var g := s.segs[s.noteSeg];
    var l := g.list[pos];
    var s' := PollEndStep(s);
    assert SegOk(s, s.noteSeg);
    ListOk(s, s.noteSeg, pos);
    EndPollBuffer(l.w);
    ThreadsFrame(s, s');
    forall i | 0 <= i < |s'.segs| ensures SegOk(s', i) {
      assert SegOk(s, i);
    }
  }

  lemma ListOk(s: Sys, i: nat, k: nat)
    requires Accounts(s) && i < |s.segs| && k < |s.segs[i].list|
    ensures LiveOk(s.segs[i].list[k]) && s.segs[i].list[k].w.rem >= 0
  {
    ListEntry(s, i, k);
  }

  lemma CompleteShape(s: Sys)
    requires Shape(s) && s.notePc.Releasing?
    ensures Shape(CompleteStep(s))
  {
    var s' := CompleteStep(s);
    ThreadsFrame(s, s');
    forall i | 0 <= i < |s'.segs| ensures SegOk(s', i) {
      assert SegOk(s, i);
    }
  }

  lemma FreeShape(s: Sys)
    requires Shape(s) && s.notePc.Freeing? && s.complete != [] && s.complete[0].Completed?
    ensures Shape(FreeStep(s))
  {
    var s' := FreeStep(s);
    ThreadsFrame(s, s');
    forall i | 0 <= i < |s'.segs| ensures SegOk(s', i) {
      assert SegOk(s, i);
    }
  }

  // ---- Every step ------------------------------------------------------

  lemma CallStepInv(s: Sys, a: Action)
    requires Inv(s) && Enabled(s, a)
    requires a.BeginSubmit? || a.Submit? || a.RollBack?
    ensures Inv(Apply(s, a))
  {
    hide Accounts, Shape;
    ThreadPc(s, a.t);
    match a
    case BeginSubmit(t, task, n, queue) =>
      BeginSubmitAccounts(s, t, task, n, queue);
      ThreadShape(s, Apply(s, a), t, Submitting(task, n, queue));
    case Submit(t, ok) =>
      SubmitAccounts(s, t, ok);
      ThreadShape(s, Apply(s, a), t, Apply(s, a).threads[t]);
    case RollBack(t) =>
      RollBackAccounts(s, t);
      ThreadShape(s, Apply(s, a), t, Idle);
  }

  lemma RequestStepInv(s: Sys, a: Action)
    requires Inv(s) && Enabled(s, a)
    requires a.ForeignPost? || a.Deliver? || a.Notify? || a.Fetch? || a.Lower?
    ensures Inv(Apply(s, a))
  {
    hide Accounts, Shape;
    match a {
      case ForeignPost(queue) => ForeignPostAccounts(s, queue);
      case Deliver(queue, tag) => DeliverAccounts(s, queue, tag);
      case Notify(seg, id, value) => NotifyAccounts(s, seg, id, value);
      case Fetch(p, k) => FetchAccounts(s, p, k);
      case Lower(p) => LowerAccounts(s, p);
    }
    OtherShape(s, Apply(s, a));
  }

  lemma WaitStepInv(s: Sys, a: Action)
    requires Inv(s) && Enabled(s, a)
    requires a.BeginWait? || a.LookHit? || a.LookMiss? || a.Return? || a.Raise?
    ensures Inv(Apply(s, a))
  {
    hide Accounts, Shape;
    ThreadPc(s, a.t);
    match a
    case BeginWait(t, task, seg, first, num, keep) =>
      BeginWaitAccounts(s, t, task, seg, first, num, keep);
      if num > 0 {
        ThreadShape(s, Apply(s, a), t, Looking(NewWait(task, seg, first, num, keep)));
      }
    case LookHit(t, id) =>
      LookAccounts(s, t, Resetting(s.threads[t].w, id));
      ThreadShape(s, Apply(s, a), t, Resetting(s.threads[t].w, id));
    case LookMiss(t) =>
      LookAccounts(s, t, Checked(s.threads[t].w));
      ThreadShape(s, Apply(s, a), t, Checked(s.threads[t].w));
    case Return(t) =>
      ReturnAccounts(s, t);
      ThreadShape(s, Apply(s, a), t, Idle);
    case Raise(t) =>
      RaiseAccounts(s, t);
      ThreadShape(s, Apply(s, a), t, Raised(s.threads[t].w));
  }

  lemma ParkStepInv(s: Sys, a: Action)
    requires Inv(s) && Enabled(s, a)
    requires a.Reset? || a.Allocate? || a.Publish?
    ensures Inv(Apply(s, a))
  {
    hide Accounts, Shape;
    ThreadPc(s, a.t);
    match a
    case Reset(t) => ResetAccounts(s, t); ResetShape(s, t);
    case Allocate(t, garbage) => AllocateAccounts(s, t, garbage); AllocateShape(s, t, garbage);
    case Publish(t) => PublishAccounts(s, t); PublishShape(s, t);
  }

  lemma PollMoveInv(s: Sys, a: Action)
    requires Inv(s) && Enabled(s, a)
    requires a.Drain? || a.Visit? || a.PollHit? || a.PollMiss?
    ensures Inv(Apply(s, a))
  {
    hide Accounts, Shape;
    PollerPc(s);
    match a
    case Drain => DrainAccounts(s); DrainShape(s);
    case Visit => PollPcAccounts(s, VisitStep(s).notePc); VisitShape(s);
    case PollHit(id) =>
      PollPcAccounts(s, PollResetting(s.notePc.pos, id));
      PollPcShape(s, PollResetting(s.notePc.pos, id));
    case PollMiss =>
      PollPcAccounts(s, PollChecked(s.notePc.pos));
      PollPcShape(s, PollChecked(s.notePc.pos));
  }

  lemma PollerPc(s: Sys)
    requires Shape(s)
    ensures NotePcOk(s)
    ensures s.noteSeg < |s.segs| ==> SegOk(s, s.noteSeg)
    ensures CompleteOk(s)
  {
  }

  lemma PollWorkInv(s: Sys, a: Action)
    requires Inv(s) && Enabled(s, a)
    requires a.PollReset? || a.PollEnd? || a.Complete? || a.Free?
    ensures Inv(Apply(s, a))
  {
    hide Accounts, Shape;
    PollerPc(s);
    match a
    case PollReset => PollResetAccounts(s); PollResetShape(s);
    case PollEnd => PollEndAccounts(s); PollEndShape(s);
    case Complete => CompleteAccounts(s); CompleteShape(s);
    case Free => FreeAccounts(s); FreeShape(s);
  }

  lemma StepInv(s: Sys, a: Action)
    requires Inv(s)
    ensures Inv(Step(s, a))
  {
    hide Inv, Apply, Enabled;
    if Enabled(s, a) {
      if a.BeginSubmit? || a.Submit? || a.RollBack? {
        CallStepInv(s, a);
      } else if a.ForeignPost? || a.Deliver? || a.Notify? || a.Fetch? || a.Lower? {
        RequestStepInv(s, a);
      } else if a.BeginWait? || a.LookHit? || a.LookMiss? || a.Return? || a.Raise? {
        WaitStepInv(s, a);
      } else if a.Reset? || a.Allocate? || a.Publish? {
        ParkStepInv(s, a);
      } else if a.Drain? || a.Visit? || a.PollHit? || a.PollMiss? {
        PollMoveInv(s, a);
      } else {
        PollWorkInv(s, a);
      }
    }
  }

  lemma {:induction false} RunInv(s: Sys, acts: seq<Action>)
    requires Inv(s)
    ensures Inv(Run(s, acts))
  {
    hide Inv, Step;
    if acts != [] {
      RunInv(s, acts[..|acts| - 1]);
      StepInv(Run(s, acts[..|acts| - 1]), acts[|acts| - 1]);
    }
  }
}
