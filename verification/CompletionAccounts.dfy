/** The books of the completion protocol and the proof that every step balances them. */
module CompletionAccounts {
  import opened Tallies
  import opened Waits
  import opened Completion

  // ---- Who owes what ---------------------------------------------------

  ghost function PcLive(p: Pc): multiset<Live> {
    match p
    case Idle => multiset{}
    case Submitting(_, _, _) => multiset{}
    case RollingBack(_, _) => multiset{}
    case Looking(w) => multiset{Checking(w)}
    case Resetting(w, _) => multiset{Checking(w)}
    case Checked(w) => multiset{Checking(w)}
    case Raised(w) => multiset{Charged(w)}
    case Publishing(w, obj) => multiset{Parked(w, obj)}
  }

  ghost function SegLive(g: Seg): multiset<Live> {
    multiset(g.queue) + multiset(g.list)
  }

  /** Every wait in progress, wherever the protocol keeps it. */
  ghost function Ledger(s: Sys): multiset<Live> {
    Sum(s.threads, PcLive) + Sum(s.segs, SegLive) + multiset(s.complete)
  }

  ghost function PcReqs(p: Pc): multiset<nat> {
    match p
    case Submitting(task, n, _) => Copies(task, n)
    case RollingBack(task, n) => Copies(task, n)
    case _ => multiset{}
  }

  ghost function QueueReqs(q: Queue): multiset<nat> {
    q.posted + multiset(q.done)
  }

  ghost function PollerReqs(p: QueuePoller): multiset<nat> {
    if p.pc.InBatch? then multiset(p.pc.tags) else multiset{}
  }

  /** Tags of requests announced by a call, in flight, completed, or fetched but not worked off. */
  ghost function Reqs(s: Sys): multiset<nat> {
    Sum(s.threads, PcReqs) + Sum(s.queues, QueueReqs) + Sum(s.pollers, PollerReqs)
  }

  ghost function LiveTasks(l: Live): multiset<nat> {
    if l.Charged? || l.Parked? then multiset{l.w.task} else multiset{}
  }

  ghost function LiveObjs(l: Live): multiset<nat> {
    if l.Parked? || l.Completed? then multiset{l.obj} else multiset{}
  }

  ghost function LiveNotes(l: Live): multiset<Note> {
    multiset(l.w.got)
  }

  ghost function OwedWaits(s: Sys): multiset<nat> { Fold(Ledger(s), LiveTasks) }
  ghost function UsedObjs(s: Sys): multiset<nat> { Fold(Ledger(s), LiveObjs) }
  ghost function HeldNotes(s: Sys): multiset<Note> { Fold(Ledger(s), LiveNotes) }

  // ---- The books -------------------------------------------------------

  ghost predicate LiveOk(l: Live) {
    && WaitOk(l.w)
    && l.w.task != TAG_NULL
    && match l
       case Checking(w) => EarlyBuffer(w)
       case Charged(w) => EarlyBuffer(w) && w.rem > 0
       case Parked(w, _) => ParkedBuffer(w)
       case Completed(w, _) => ParkedBuffer(w) && w.rem == 0
  }

  ghost predicate EventsOk(s: Sys) {
    forall task :: task != TAG_NULL ==> s.events[task] == Reqs(s)[task] + OwedWaits(s)[task]
  }

  ghost predicate ObjsOk(s: Sys) {
    multiset(s.pool) + UsedObjs(s) == multiset(AllObjects())
  }

  ghost predicate NotesOk(s: Sys) {
    s.taken == s.retired + HeldNotes(s)
  }

  ghost predicate LedgerOk(s: Sys) {
    forall l :: l in Ledger(s) ==> LiveOk(l)
  }

  ghost predicate Accounts(s: Sys) {
    EventsOk(s) && ObjsOk(s) && NotesOk(s) && LedgerOk(s)
  }

  /** `s'` has the waits `inn` where `s` had `out`. */
  ghost predicate Moves(s: Sys, s': Sys, out: multiset<Live>, inn: multiset<Live>) {
    out <= Ledger(s) && Ledger(s') == Ledger(s) - out + inn
  }

  /** The books balance after any step whose entries balance. */
  lemma Balance(s: Sys, s': Sys, out: multiset<Live>, inn: multiset<Live>)
    requires Accounts(s) && Moves(s, s', out, inn)
    requires forall l :: l in inn ==> LiveOk(l)
    requires forall task :: task != TAG_NULL ==>
               s'.events[task] + Reqs(s)[task] + Fold(out, LiveTasks)[task]
               == s.events[task] + Reqs(s')[task] + Fold(inn, LiveTasks)[task]
    requires multiset(s'.pool) + Fold(inn, LiveObjs) == multiset(s.pool) + Fold(out, LiveObjs)
    requires s'.taken + (s.retired + Fold(out, LiveNotes)) == s.taken + (s'.retired + Fold(inn, LiveNotes))
    ensures Accounts(s')
  {
    FoldMove(Ledger(s), Ledger(s'), out, inn, LiveTasks);
    FoldMove(Ledger(s), Ledger(s'), out, inn, LiveObjs);
    FoldMove(Ledger(s), Ledger(s'), out, inn, LiveNotes);
    BalanceEvents(s, s', Fold(out, LiveTasks), Fold(inn, LiveTasks));
    BalanceSum(multiset(s.pool), UsedObjs(s), multiset(s'.pool), UsedObjs(s'), Fold(out, LiveObjs), Fold(inn, LiveObjs));
    BalanceNotes(s.taken, s.retired, HeldNotes(s), s'.taken, s'.retired, HeldNotes(s'), Fold(out, LiveNotes), Fold(inn, LiveNotes));
  }

  lemma BalanceEvents(s: Sys, s': Sys, out: multiset<nat>, inn: multiset<nat>)
    requires EventsOk(s) && OwedWaits(s') + out == OwedWaits(s) + inn
    requires forall task :: task != TAG_NULL ==>
               s'.events[task] + Reqs(s)[task] + out[task] == s.events[task] + Reqs(s')[task] + inn[task]
    ensures EventsOk(s')
  {
    forall task | task != TAG_NULL ensures s'.events[task] == Reqs(s')[task] + OwedWaits(s')[task] {
      assert (OwedWaits(s') + out)[task] == (OwedWaits(s) + inn)[task];
    }
  }

  lemma BalanceSum<X>(a: multiset<X>, b: multiset<X>, a': multiset<X>, b': multiset<X>, out: multiset<X>, inn: multiset<X>)
    requires b' + out == b + inn && a' + inn == a + out
    ensures a' + b' == a + b
  {
    forall x ensures (a' + b')[x] == (a + b)[x] {
      assert (b' + out)[x] == (b + inn)[x] && (a' + inn)[x] == (a + out)[x];
    }
  }

  lemma BalanceNotes<X>(taken: multiset<X>, retired: multiset<X>, held: multiset<X>,
                        taken': multiset<X>, retired': multiset<X>, held': multiset<X>,
                        out: multiset<X>, inn: multiset<X>)
    requires taken == retired + held && held' + out == held + inn
    requires taken' + (retired + out) == taken + (retired' + inn)
    ensures taken' == retired' + held'
  {
    forall x ensures taken'[x] == (retired' + held')[x] {
      assert taken[x] == (retired + held)[x] && (held' + out)[x] == (held + inn)[x];
      assert (taken' + (retired + out))[x] == (taken + (retired' + inn))[x];
    }
  }

  // ---- How a change of one thread or one segment moves the ledger --------

  lemma Commute<X>(a: multiset<X>, b: multiset<X>)
    ensures a + b == b + a
  {
  }

  lemma ThreadMoves(s: Sys, t: nat, p: Pc)
    requires t < |s.threads|
    ensures Moves(s, s.(threads := s.threads[t := p]), PcLive(s.threads[t]), PcLive(p))
  {
    SumUpdate(s.threads, t, p, PcLive);
    Regroup(Sum(s.threads, PcLive), Sum(s.segs, SegLive), PcLive(s.threads[t]), PcLive(p));
    Regroup(Sum(s.threads, PcLive) + Sum(s.segs, SegLive), multiset(s.complete), PcLive(s.threads[t]), PcLive(p));
  }

  lemma ThreadReqs(s: Sys, t: nat, p: Pc)
    requires t < |s.threads|
    ensures PcReqs(s.threads[t]) <= Reqs(s)
    ensures Reqs(s.(threads := s.threads[t := p])) == Reqs(s) - PcReqs(s.threads[t]) + PcReqs(p)
  {
    SumUpdate(s.threads, t, p, PcReqs);
    Regroup(Sum(s.threads, PcReqs), Sum(s.queues, QueueReqs), PcReqs(s.threads[t]), PcReqs(p));
    Regroup(Sum(s.threads, PcReqs) + Sum(s.queues, QueueReqs), Sum(s.pollers, PollerReqs), PcReqs(s.threads[t]), PcReqs(p));
  }

  lemma SegMoves(s: Sys, i: nat, g: Seg)
    requires i < |s.segs|
    ensures Moves(s, s.(segs := s.segs[i := g]), SegLive(s.segs[i]), SegLive(g))
  {
    SumUpdate(s.segs, i, g, SegLive);
    Regroup(Sum(s.segs, SegLive), Sum(s.threads, PcLive), SegLive(s.segs[i]), SegLive(g));
    Commute(Sum(s.segs, SegLive), Sum(s.threads, PcLive));
    Commute(Sum(s.segs[i := g], SegLive), Sum(s.threads, PcLive));
    Regroup(Sum(s.threads, PcLive) + Sum(s.segs, SegLive), multiset(s.complete), SegLive(s.segs[i]), SegLive(g));
  }

  lemma QueueMoves(s: Sys, i: nat, q: Queue)
    requires i < |s.queues|
    ensures QueueReqs(s.queues[i]) <= Reqs(s)
    ensures Reqs(s.(queues := s.queues[i := q])) == Reqs(s) - QueueReqs(s.queues[i]) + QueueReqs(q)
  {
    SumUpdate(s.queues, i, q, QueueReqs);
    Regroup(Sum(s.queues, QueueReqs), Sum(s.threads, PcReqs), QueueReqs(s.queues[i]), QueueReqs(q));
    Commute(Sum(s.queues, QueueReqs), Sum(s.threads, PcReqs));
    Commute(Sum(s.queues[i := q], QueueReqs), Sum(s.threads, PcReqs));
    Regroup(Sum(s.threads, PcReqs) + Sum(s.queues, QueueReqs), Sum(s.pollers, PollerReqs), QueueReqs(s.queues[i]), QueueReqs(q));
  }

  lemma PollerMoves(s: Sys, i: nat, p: QueuePoller)
    requires i < |s.pollers|
    ensures PollerReqs(s.pollers[i]) <= Reqs(s)
    ensures Reqs(s.(pollers := s.pollers[i := p])) == Reqs(s) - PollerReqs(s.pollers[i]) + PollerReqs(p)
  {
    SumUpdate(s.pollers, i, p, PollerReqs);
    var rest := Sum(s.threads, PcReqs) + Sum(s.queues, QueueReqs);
    Regroup(Sum(s.pollers, PollerReqs), rest, PollerReqs(s.pollers[i]), PollerReqs(p));
    Commute(Sum(s.pollers, PollerReqs), rest);
    Commute(Sum(s.pollers[i := p], PollerReqs), rest);
  }

  /** Folds of the small multisets that single steps move. */
  lemma FoldsOne(l: Live)
    ensures Fold(multiset{l}, LiveTasks) == LiveTasks(l)
    ensures Fold(multiset{l}, LiveObjs) == LiveObjs(l)
    ensures Fold(multiset{l}, LiveNotes) == LiveNotes(l)
  {
    FoldOne(l, LiveTasks);
    FoldOne(l, LiveObjs);
    FoldOne(l, LiveNotes);
  }
}
