/** A pool with a fixed number of workers: two more invariants of the protocol, what of a state decides
    whether a client can still be reported as disconnected, and why no step without a new worker makes
    that possible when it was not. */
module PoolModel {

  import opened ClientProtocol
  import opened ClientOutcomes

  // ---------- two more invariants ----------

  /** A disconnect job of the client waits or is in hand. */
  ghost predicate Announced(s: State, c: ClientId) {
    exists j :: j in s.heap && s.heap[j].kind == DisconnectJob(c)
  }

  /** A client that is disconnecting and not yet reported has a disconnect job. */
  ghost predicate AllAnnounced(s: State) {
    forall c :: c in s.clients && s.clients[c].status == Disconnect && !Reported(s.clients[c].events) ==> Announced(s, c)
  }

  /** A disconnect job ends only with its report. */
  lemma DisconnectStays(s: State, l: Label, j: JobId, c: ClientId)
    requires c in s.clients && j in s.heap && s.heap[j].kind == DisconnectJob(c)
    ensures var s' := Step(s, l);
      (j in s'.heap && s'.heap[j].kind == DisconnectJob(c)) || (c in s'.clients && Reported(s'.clients[c].events))
  {
    hide Reported;
    if l.Advance? && Holds(s, l.w) && s.workers[l.w].value == j && s.heap[j].stage == Sent {
      SaysGoodbye(s, l.w, j, c);
    }
  }

  lemma ReportStays(s: State, l: Label, c: ClientId)
    requires c in s.clients && Reported(s.clients[c].events)
    ensures c in Step(s, l).clients && Reported(Step(s, l).clients[c].events)
  {
    hide Step;
    HistoryGrows(s, l, c);
  }

  /** Whoever turns a client to Disconnect queues a disconnect job for it. */
  lemma TurnAnnounces(s: State, l: Label, c: ClientId)
    requires c in Step(s, l).clients && Step(s, l).clients[c].status == Disconnect
    requires c in s.clients ==> s.clients[c].status != Disconnect
    ensures Announced(Step(s, l), c)
  {
    var s' := Step(s, l);
    assert l.Read? || l.Kick? || l.Error?;
    assert l.j in s'.heap && s'.heap[l.j].kind == DisconnectJob(c);
  }

  lemma StepAnnounced(s: State, l: Label)
    requires AllAnnounced(s)
    ensures AllAnnounced(Step(s, l))
  {
    hide Step, Announced, Reported;
    var s' := Step(s, l);
    forall c | c in s'.clients && s'.clients[c].status == Disconnect && !Reported(s'.clients[c].events)
      ensures Announced(s', c)
    {
      if c !in s.clients || s.clients[c].status != Disconnect {
        TurnAnnounces(s, l, c);
      } else {
        if Reported(s.clients[c].events) { ReportStays(s, l, c); }
        StaysAnnounced(s, l, c);
      }
    }
  }

  lemma StaysAnnounced(s: State, l: Label, c: ClientId)
    requires c in s.clients && Announced(s, c)
    ensures Announced(Step(s, l), c) || (c in Step(s, l).clients && Reported(Step(s, l).clients[c].events))
  {
    hide Step, Reported;
    var j :| j in s.heap && s.heap[j].kind == DisconnectJob(c);
    DisconnectStays(s, l, j, c);
  }

  ghost predicate Behind(s: State, j: JobId, k: nat) {
    exists i :: k < i < |s.queue| && s.queue[i] == j
  }

  predicate Waits(s: State, k: nat, c: ClientId) {
    k < |s.queue| && s.queue[k] in s.heap && s.heap[s.queue[k]].kind.ProcessJob? && s.heap[s.queue[k]].kind.client == c
  }

  /** Behind a process job that waits, the disconnect jobs of its client wait too. */
  ghost predicate Ordered(s: State) {
    forall j, k: nat :: j in s.heap && s.heap[j].kind.DisconnectJob? && Waits(s, k, s.heap[j].kind.client) ==> Behind(s, j, k)
  }

  lemma OrderedSame(s: State, s': State)
    requires Ordered(s) && s'.heap == s.heap && s'.queue == s.queue
    ensures Ordered(s')
  {
    forall j, k: nat | j in s'.heap && s'.heap[j].kind.DisconnectJob? && Waits(s', k, s'.heap[j].kind.client)
      ensures Behind(s', j, k)
    {
      assert Waits(s, k, s.heap[j].kind.client) && Behind(s, j, k);
    }
  }

  /** A process job is queued only for a client without disconnect jobs. */
  lemma OrderedAdd(s: State, s': State, j: JobId, kind: Kind)
    requires Ordered(s) && Placed(s) && j !in s.heap
    requires s'.heap == s.heap[j := Job(kind, Queued)] && s'.queue == s.queue + [j]
    requires kind.ProcessJob? ==> !Announced(s, kind.client)
    ensures Ordered(s')
  {
    assert j == s'.queue[|s.queue|];
    forall i, k: nat | i in s'.heap && s'.heap[i].kind.DisconnectJob? && Waits(s', k, s'.heap[i].kind.client)
      ensures Behind(s', i, k)
    {
      if k < |s.queue| && i != j {
        assert s.queue[k] == s'.queue[k];
        assert Waits(s, k, s.heap[i].kind.client) && Behind(s, i, k);
        var p :| k < p < |s.queue| && s.queue[p] == i;
        assert s'.queue[p] == i;
      }
    }
  }

  lemma OrderedOn(s: State, s': State, w: WorkerId, j: JobId)
    requires Ordered(s) && j in s.heap && GoesOn(s, s', w, j)
    ensures Ordered(s')
  {
    forall i, k: nat | i in s'.heap && s'.heap[i].kind.DisconnectJob? && Waits(s', k, s'.heap[i].kind.client)
      ensures Behind(s', i, k)
    {
      assert i in s.heap && s.heap[i].kind == s'.heap[i].kind;
      assert s'.queue[k] in s.heap && s.heap[s'.queue[k]].kind == s'.heap[s'.queue[k]].kind;
      assert Waits(s, k, s.heap[i].kind.client) && Behind(s, i, k);
    }
  }

  lemma OrderedTake(s: State, w: WorkerId)
    requires Ordered(s) && Placed(s)
    ensures Ordered(Step(s, Take(w)))
  {
    var s' := Step(s, Take(w));
    if s' != s {
      forall i, k: nat | i in s'.heap && s'.heap[i].kind.DisconnectJob? && Waits(s', k, s'.heap[i].kind.client)
        ensures Behind(s', i, k)
      {
        assert s'.queue[k] == s.queue[k + 1];
        assert Waits(s, k + 1, s.heap[i].kind.client) && Behind(s, i, k + 1);
        var p :| k + 1 < p < |s.queue| && s.queue[p] == i;
        assert s'.queue[p - 1] == i;
      }
    }
  }

  lemma NotAnnouncedIdle(s: State, c: ClientId)
    requires Inv(s) && c in s.clients && s.clients[c].status != Disconnect
    ensures !Announced(s, c)
  {
    forall j | j in s.heap
      ensures s.heap[j].kind != DisconnectJob(c)
    {
      assert JobOk(s, j);
    }
  }

  lemma StepOrdered(s: State, l: Label)
    requires Inv(s) && Ordered(s)
    ensures Ordered(Step(s, l))
  {
    hide Ordered, JobOk, ClientOk, CheckRegion, AdvanceRegion, GoesOn, Announced;
    var s' := Step(s, l);
    match l
    case Register(c) => OrderedSame(s, s');
    case EnqueueConnect(c, j) =>
      if c in s.accepting && j !in s.heap { OrderedAdd(s, s', j, ConnectJob(c)); }
    case Read(c, input, j) =>
      if s' != s {
        if input.Parsed? {
          NotAnnouncedIdle(s, c);
          OrderedAdd(s, s', j, ProcessJob(c, input.packet));
        } else {
          OrderedAdd(s, s', j, DisconnectJob(c));
        }
      }
    case Kick(c, j) => if s' != s { OrderedAdd(s, s', j, DisconnectJob(c)); }
    case Error(c, j) => if c in s.clients && j !in s.heap { OrderedAdd(s, s', j, DisconnectJob(c)); }
    case Custom(j) => if j !in s.heap { OrderedAdd(s, s', j, CustomJob); }
    case Spawn(w) => OrderedSame(s, s');
    case Take(w) => OrderedTake(s, w);
    case Check(w) =>
      if Holds(s, w) && s.heap[s.workers[w].value].stage == Taken && Addressed(s, s.workers[w].value) {
        CheckGoesOn(s, w, s.workers[w].value);
        OrderedOn(s, s', w, s.workers[w].value);
      }
    case Advance(w) =>
      if Holds(s, w) && !s.heap[s.workers[w].value].kind.CustomJob? && Addressed(s, s.workers[w].value) {
        AdvanceGoesOn(s, w, s.workers[w].value);
        OrderedOn(s, s', w, s.workers[w].value);
      }
  }

  /** How far a job of each kind can be. */
  predicate Fits(job: Job) {
    && (job.kind.CustomJob? ==> job.stage in {Queued, Taken})
    && (job.kind.ConnectJob? || job.kind.DisconnectJob? ==> job.stage != Done)
  }

  ghost predicate AllFit(s: State) {
    forall j :: j in s.heap ==> Fits(s.heap[j])
  }

  lemma StepFits(s: State, l: Label)
    requires AllFit(s)
    ensures AllFit(Step(s, l))
  {
    forall j | j in Step(s, l).heap
      ensures Fits(Step(s, l).heap[j])
    {
      JobFits(s, l, j);
    }
  }

  lemma JobFits(s: State, l: Label, j: JobId)
    requires j in Step(s, l).heap && (j in s.heap ==> Fits(s.heap[j]))
    ensures Fits(Step(s, l).heap[j])
  {
  }

  /** All that is known of a reachable state. */
  ghost predicate Proper(s: State) {
    Inv(s) && Attended(s) && Ordered(s) && AllAnnounced(s) && AllFit(s)
  }

  lemma StepProper(s: State, l: Label)
    requires Proper(s)
    ensures Proper(Step(s, l))
  {
    hide JobOk, ClientOk, Placed, Step, Attended, Ordered, AllAnnounced, AllFit;
    StepKeeps(s, l);
    StepFits(s, l);
    StepAttended(s, l);
    StepOrdered(s, l);
    StepAnnounced(s, l);
  }

  lemma {:induction false} RunProper(s: State, ls: seq<Label>)
    requires Proper(s)
    ensures Proper(Run(s, ls))
  {
    hide Proper, Step;
    if ls != [] {
      RunProper(s, ls[..|ls| - 1]);
      StepProper(Run(s, ls[..|ls| - 1]), ls[|ls| - 1]);
    }
  }

  lemma ReachedProper(ls: seq<Label>)
    ensures Proper(Run(Start, ls))
  {
    RunProper(Start, ls);
  }

  /** After every run, a client at Disconnect that was not reported has a disconnect job in the queue or
      in the hands of a worker. */
  lemma DisconnectAnnounced(ls: seq<Label>, c: ClientId)
    requires var s := Run(Start, ls);
      c in s.clients && s.clients[c].status == Disconnect && !Reported(s.clients[c].events)
    ensures var s := Run(Start, ls);
      exists j :: j in s.heap && s.heap[j].kind == DisconnectJob(c) && (j in s.queue || Held(s, j))
  {
    var s := Run(Start, ls);
    ReachedProper(ls);
    hide Inv, Ordered;
    assert Announced(s, c);
    var j :| j in s.heap && s.heap[j].kind == DisconnectJob(c);
  }

  /** When a worker has a disconnect job of the client, another one has its process job, if there is one. */
  lemma ProcessInHand(s: State, j: JobId, i: JobId)
    requires Proper(s) && j in s.heap && s.heap[j].kind.DisconnectJob? && s.heap[j].stage != Queued
    requires i in Outstanding(s, s.heap[j].kind.client)
    ensures i in s.heap && s.heap[i].stage != Queued
  {
    hide JobOk, ClientOk, AllAnnounced, Ordered;
    if s.heap[i].stage == Queued {
      var k :| 0 <= k < |s.queue| && s.queue[k] == i;
      WaitsBehind(s, j, k);
    }
  }

  lemma WaitsBehind(s: State, j: JobId, k: nat)
    requires Ordered(s) && Placed(s) && j in s.heap && s.heap[j].kind.DisconnectJob?
    requires Waits(s, k, s.heap[j].kind.client)
    ensures s.heap[j].stage == Queued
  {
    assert Behind(s, j, k);
  }

  // ---------- the pool and the queue, as far as they matter ----------

  /** The worker has a disconnect job in hand that waits for ever. */
  predicate Lost(s: State, w: WorkerId) {
    Holds(s, w) &&
    var job := s.heap[s.workers[w].value];
    job.kind.DisconnectJob? && job.stage != Sent && job.kind.client in s.clients && s.clients[job.kind.client].dropped
  }

  /** The worker has a connect job in hand, not yet checked, of a client that is disconnecting. */
  predicate Keeps(s: State, w: WorkerId) {
    Holds(s, w) &&
    var job := s.heap[s.workers[w].value];
    job.kind.ConnectJob? && job.stage == Taken && job.kind.client in s.clients &&
    s.clients[job.kind.client].status == Disconnect
  }

  /** All other workers, but for some that are set aside, can be made free. */
  function Spare(s: State, r: set<WorkerId>): set<WorkerId> {
    set w | w in s.workers && w !in r && !Lost(s, w) && !Keeps(s, w)
  }

  /** The clients that are disconnecting, those whose connect job was dropped, and those whose connect
      job is in the hands of a worker and not yet checked. */
  function Gone(s: State): set<ClientId> {
    set c | c in s.clients && s.clients[c].status == Disconnect
  }

  function Wrapped(s: State): set<ClientId> {
    set c | c in s.clients && s.clients[c].dropped
  }

  function Kept(s: State): set<ClientId> {
    set c | c in s.clients && s.clients[c].status == Disconnect && UncheckedConnect(s, c)
  }

  predicate UncheckedConnect(s: State, c: ClientId) {
    exists j :: j in s.heap && s.heap[j] == Job(ConnectJob(c), Taken)
  }

  function KindOf(heap: map<JobId, Job>, j: JobId): Kind {
    if j in heap then heap[j].kind else CustomJob
  }

  function Kinds(heap: map<JobId, Job>, q: seq<JobId>): (ks: seq<Kind>)
    ensures |ks| == |q|
  {
    if q == [] then [] else [KindOf(heap, q[0])] + Kinds(heap, q[1..])
  }

  function Waiting(s: State): (ks: seq<Kind>)
    ensures |ks| == |s.queue|
  {
    Kinds(s.heap, s.queue)
  }

  datatype Pool = Pool(spare: nat, kept: set<ClientId>, lost: set<ClientId>)

  function PoolOf(s: State, r: set<WorkerId>): Pool {
    Pool(|Spare(s, r)|, Kept(s), Wrapped(s))
  }

  /** A kept connect job is checked, and so dropped. */
  function GiveUp(p: Pool, c: ClientId): Pool {
    Pool(p.spare + 1, p.kept - {c}, p.lost + {c})
  }

  /** A spare worker takes a job. */
  function Taking(p: Pool, k: Kind, gone: set<ClientId>): Pool
    requires p.spare > 0
  {
    match k
    case DisconnectJob(c) => if c in p.lost then p.(spare := p.spare - 1) else p
    case ConnectJob(c) => if c in gone then p.(spare := p.spare - 1, kept := p.kept + {c}) else p
    case _ => p
  }

  /** Whether the waiting jobs can be taken up to the first disconnect job of client c, with the connect
      job of c kept, if it was taken. Every other kept connect job may be given up at any time. */
  predicate Serves(p: Pool, gone: set<ClientId>, q: seq<Kind>, c: ClientId)
    decreases |q|, p.kept
  {
    q != [] &&
    ((exists d :: d in p.kept && d != c && Serves(GiveUp(p, d), gone, q, c)) ||
     (p.spare > 0 && (q[0] == DisconnectJob(c) || Serves(Taking(p, q[0], gone), gone, q[1..], c))))
  }

  // ---------- about the condition ----------

  lemma {:induction false} MoreSpare(p: Pool, p': Pool, gone: set<ClientId>, q: seq<Kind>, c: ClientId)
    requires Serves(p, gone, q, c) && p.spare <= p'.spare && p'.kept == p.kept && p'.lost == p.lost
    ensures Serves(p', gone, q, c)
    decreases |q|, p.kept
  {
    if d :| d in p.kept && d != c && Serves(GiveUp(p, d), gone, q, c) {
      MoreSpare(GiveUp(p, d), GiveUp(p', d), gone, q, c);
    } else if q[0] != DisconnectJob(c) {
      MoreSpare(Taking(p, q[0], gone), Taking(p', q[0], gone), gone, q[1..], c);
    }
  }

  /** What is queued behind the disconnect job of c does not matter. */
  lemma {:induction false} QueuedBehind(p: Pool, gone: set<ClientId>, q: seq<Kind>, x: seq<Kind>, c: ClientId)
    requires DisconnectJob(c) in q
    ensures Serves(p, gone, q + x, c) <==> Serves(p, gone, q, c)
    decreases |q|, p.kept
  {
    assert (q + x)[0] == q[0] && (q + x)[1..] == q[1..] + x;
    forall d | d in p.kept && d != c
      ensures Serves(GiveUp(p, d), gone, q + x, c) <==> Serves(GiveUp(p, d), gone, q, c)
    {
      QueuedBehind(GiveUp(p, d), gone, q, x, c);
    }
    if p.spare > 0 && q[0] != DisconnectJob(c) {
      QueuedBehind(Taking(p, q[0], gone), gone, q[1..], x, c);
    }
  }

  /** The pool as it would be if client e were not disconnecting. */
  function Relieved(p: Pool, e: ClientId): Pool {
    Pool(if e in p.kept then p.spare + 1 else p.spare, p.kept - {e}, p.lost - {e})
  }

  lemma {:induction false} NoHelp(p: Pool, gone: set<ClientId>, q: seq<Kind>, c: ClientId, e: ClientId)
    requires Serves(p, gone + {e}, q, c) && e != c && DisconnectJob(e) !in q
    ensures Serves(Relieved(p, e), gone - {e}, q, c)
    decreases |q|, p.kept
  {
    var p' := Relieved(p, e);
    if d :| d in p.kept && d != c && Serves(GiveUp(p, d), gone + {e}, q, c) {
      NoHelp(GiveUp(p, d), gone, q, c, e);
      if d == e {
        assert Relieved(GiveUp(p, d), e) == p';
      } else {
        assert Relieved(GiveUp(p, d), e) == GiveUp(p', d);
      }
    } else if q[0] != DisconnectJob(c) {
      var n := Taking(p, q[0], gone + {e});
      NoHelp(n, gone, q[1..], c, e);
      NoHelpTaking(p, q[0], gone, e);
      MoreSpare(Relieved(n, e), Taking(p', q[0], gone - {e}), gone - {e}, q[1..], c);
    }
  }

  lemma NoHelpTaking(p: Pool, k: Kind, gone: set<ClientId>, e: ClientId)
    requires p.spare > 0 && k != DisconnectJob(e)
    ensures var n, m := Relieved(Taking(p, k, gone + {e}), e), Taking(Relieved(p, e), k, gone - {e});
      n.spare <= m.spare && n.kept == m.kept && n.lost == m.lost
  {
  }

  // ---------- what the steps do to it ----------

  lemma {:induction false} KindsSame(heap: map<JobId, Job>, heap': map<JobId, Job>, q: seq<JobId>)
    requires forall j :: j in q ==> KindOf(heap', j) == KindOf(heap, j)
    ensures Kinds(heap', q) == Kinds(heap, q)
  {
    if q != [] { KindsSame(heap, heap', q[1..]); }
  }

  lemma {:induction false} KindsAppend(heap: map<JobId, Job>, q: seq<JobId>, j: JobId)
    ensures Kinds(heap, q + [j]) == Kinds(heap, q) + [KindOf(heap, j)]
  {
    if q == [] {
      assert [j][1..] == [];
    } else {
      assert (q + [j])[1..] == q[1..] + [j];
      KindsAppend(heap, q[1..], j);
    }
  }

  lemma {:induction false} KindsAt(heap: map<JobId, Job>, q: seq<JobId>, i: nat)
    requires i < |q|
    ensures Kinds(heap, q)[i] == KindOf(heap, q[i])
  {
    if i > 0 { KindsAt(heap, q[1..], i - 1); }
  }

  /** Nothing that matters has changed. */
  ghost predicate SameView(s: State, s': State, r: set<WorkerId>) {
    && Spare(s', r) == Spare(s, r) && Kept(s') == Kept(s) && Wrapped(s') == Wrapped(s)
    && Gone(s') == Gone(s) && Waiting(s') == Waiting(s)
  }

  /** The same clients are disconnecting, and the same were dropped. */
  ghost predicate ClientsAlike(s: State, s': State) {
    && s'.clients.Keys == s.clients.Keys
    && forall c :: c in s.clients ==>
         (s'.clients[c].status == Disconnect <==> s.clients[c].status == Disconnect) &&
         s'.clients[c].dropped == s.clients[c].dropped
  }

  /** A worker goes on with its job j, which waits for ever or is kept afterwards if it was before. */
  lemma GoesOnView(s: State, s': State, w: WorkerId, j: JobId, r: set<WorkerId>)
    requires Placed(s) && w in s.workers && s.workers[w] == Some(j) && j in s.heap
    requires GoesOn(s, s', w, j) && ClientsAlike(s, s')
    requires (Lost(s', w) <==> Lost(s, w)) && (Keeps(s', w) <==> Keeps(s, w))
    ensures SameView(s, s', r)
  {
    OthersGoOn(s, s', w, j);
    assert Spare(s', r) == Spare(s, r);
    KeptGoesOn(s, s', w, j);
    QueueGoesOn(s, s', w, j);
  }

  lemma OthersGoOn(s: State, s': State, w: WorkerId, j: JobId)
    requires Placed(s) && w in s.workers && s.workers[w] == Some(j) && j in s.heap
    requires GoesOn(s, s', w, j) && ClientsAlike(s, s')
    ensures s'.workers.Keys == s.workers.Keys
    ensures forall v :: v in s.workers && v != w ==> (Lost(s', v) <==> Lost(s, v)) && (Keeps(s', v) <==> Keeps(s, v))
  {
    forall v | v in s.workers && v != w
      ensures (Lost(s', v) <==> Lost(s, v)) && (Keeps(s', v) <==> Keeps(s, v))
    {
      assert s'.workers[v] == s.workers[v] != Some(j);
    }
  }

  lemma KeptGoesOn(s: State, s': State, w: WorkerId, j: JobId)
    requires w in s.workers && s.workers[w] == Some(j) && j in s.heap
    requires GoesOn(s, s', w, j) && ClientsAlike(s, s') && (Keeps(s', w) <==> Keeps(s, w))
    ensures Kept(s') == Kept(s)
  {
    forall c | c in s.clients && s.clients[c].status == Disconnect
      ensures UncheckedConnect(s', c) <==> UncheckedConnect(s, c)
    {
      if UncheckedConnect(s, c) {
        var i :| i in s.heap && s.heap[i] == Job(ConnectJob(c), Taken);
        if i == j { assert Keeps(s, w); }
        assert i in s'.heap && s'.heap[i] == Job(ConnectJob(c), Taken);
      }
      if UncheckedConnect(s', c) {
        var i :| i in s'.heap && s'.heap[i] == Job(ConnectJob(c), Taken);
        if i == j { assert Keeps(s', w); }
        assert i in s.heap && s.heap[i] == Job(ConnectJob(c), Taken);
      }
    }
  }

  lemma QueueGoesOn(s: State, s': State, w: WorkerId, j: JobId)
    requires Placed(s) && w in s.workers && s.workers[w] == Some(j) && j in s.heap && GoesOn(s, s', w, j)
    ensures Waiting(s') == Waiting(s)
  {
    forall i | i in s.queue
      ensures KindOf(s'.heap, i) == KindOf(s.heap, i)
    {
      assert s.heap[i].stage == Queued && i != j;
    }
    KindsSame(s.heap, s'.heap, s.queue);
  }

  lemma AdvanceAlike(s: State, w: WorkerId, j: JobId)
    requires j in s.heap && !s.heap[j].kind.CustomJob? && Addressed(s, j)
    ensures ClientsAlike(s, AdvanceRegion(s, w, j))
  {
  }

  lemma AdvanceOwn(s: State, w: WorkerId, j: JobId)
    requires Inv(s) && Holds(s, w) && s.workers[w] == Some(j) && !s.heap[j].kind.CustomJob? && Addressed(s, j)
    ensures var s' := AdvanceRegion(s, w, j); (Lost(s', w) <==> Lost(s, w)) && (Keeps(s', w) <==> Keeps(s, w))
  {
    var c := s.heap[j].kind.client;
    assert ClientOk(s, c);
    assert s.clients[c].dropped ==> s.clients[c].jobs == 255;
    hide ClientOk, Placed, JobOk, Inv;
  }

  lemma AdvanceView(s: State, w: WorkerId, r: set<WorkerId>)
    requires Inv(s)
    ensures SameView(s, Step(s, Advance(w)), r)
  {
    hide ClientOk, JobOk, Placed, AdvanceRegion, Lost, Keeps, ClientsAlike, GoesOn, SameView;
    if Holds(s, w) && !s.heap[s.workers[w].value].kind.CustomJob? && Addressed(s, s.workers[w].value) {
      var j := s.workers[w].value;
      AdvanceGoesOn(s, w, j);
      AdvanceAlike(s, w, j);
      AdvanceOwn(s, w, j);
      GoesOnView(s, Step(s, Advance(w)), w, j, r);
    } else {
      NoChange(s, r);
    }
  }

  lemma NoChange(s: State, r: set<WorkerId>)
    ensures SameView(s, s, r)
  {
  }

  lemma CheckAlike(s: State, w: WorkerId, j: JobId)
    requires Holds(s, w) && s.workers[w] == Some(j) && Addressed(s, j) && s.heap[j].stage == Taken && !Keeps(s, w)
    ensures ClientsAlike(s, CheckRegion(s, w, j))
    ensures var s' := CheckRegion(s, w, j); (Lost(s', w) <==> Lost(s, w)) && !Keeps(s', w)
  {
  }

  /** A check that drops no connect job. */
  lemma CheckView(s: State, w: WorkerId, r: set<WorkerId>)
    requires Inv(s) && !Keeps(s, w)
    ensures SameView(s, Step(s, Check(w)), r)
  {
    hide ClientOk, JobOk, Placed, CheckRegion, Lost, Keeps, ClientsAlike, GoesOn, SameView;
    if Holds(s, w) && s.heap[s.workers[w].value].stage == Taken && Addressed(s, s.workers[w].value) {
      var j := s.workers[w].value;
      CheckGoesOn(s, w, j);
      CheckAlike(s, w, j);
      GoesOnView(s, Step(s, Check(w)), w, j, r);
    } else {
      NoChange(s, r);
    }
  }

  // ---------- a connect job is dropped ----------

  function KeptClient(s: State, w: WorkerId): ClientId
    requires Keeps(s, w)
  {
    s.heap[s.workers[w].value].kind.client
  }

  lemma DropIs(s: State, w: WorkerId)
    requires Keeps(s, w)
    ensures var s', c := Step(s, Check(w)), KeptClient(s, w);
      && s' == Finish(SetClient(s, c, s.clients[c].(jobs := Down(s.clients[c].jobs), dropped := true)), w, s.workers[w].value)
  {
  }

  lemma DropSets(s: State, w: WorkerId)
    requires Inv(s) && Keeps(s, w)
    ensures var s', c := Step(s, Check(w)), KeptClient(s, w);
      && c in Kept(s) && Gone(s') == Gone(s) && Wrapped(s') == Wrapped(s) + {c} && Kept(s') == Kept(s) - {c}
      && Waiting(s') == Waiting(s)
  {
    var c, j := KeptClient(s, w), s.workers[w].value;
    DropIs(s, w);
    DropUnchecked(s, w);
    hide Step, JobOk, ClientOk, UncheckedConnect;
    IsUnchecked(s, j, c);
    QueueWithout(s, j);
    hide Inv, Waiting;
  }

  lemma QueueWithout(s: State, j: JobId)
    requires Placed(s) && j in s.heap && s.heap[j].stage != Queued
    ensures Kinds(s.heap - {j}, s.queue) == Waiting(s)
  {
    forall i | i in s.queue
      ensures KindOf(s.heap - {j}, i) == KindOf(s.heap, i)
    {
    }
    KindsSame(s.heap, s.heap - {j}, s.queue);
  }

  lemma IsUnchecked(s: State, j: JobId, c: ClientId)
    requires j in s.heap && s.heap[j] == Job(ConnectJob(c), Taken)
    ensures UncheckedConnect(s, c)
  {
  }

  lemma DropUnchecked(s: State, w: WorkerId)
    requires Inv(s) && Keeps(s, w)
    ensures var s', c := Step(s, Check(w)), KeptClient(s, w);
      && !UncheckedConnect(s', c)
      && forall d :: d != c ==> (UncheckedConnect(s', d) <==> UncheckedConnect(s, d))
  {
    var s', c, j := Step(s, Check(w)), KeptClient(s, w), s.workers[w].value;
    DropIs(s, w);
    hide Step;
    assert ClientOk(s, c) && j in Connecting(s, c);
    Singleton(Connecting(s, c), j);
    hide ClientOk, JobOk, Placed, Inv;
    forall i | i in s'.heap
      ensures s'.heap[i] == s.heap[i] && s'.heap[i] != Job(ConnectJob(c), Taken)
    {
      assert i !in Connecting(s, c);
    }
    forall d | d != c && UncheckedConnect(s, d)
      ensures UncheckedConnect(s', d)
    {
      var i :| i in s.heap && s.heap[i] == Job(ConnectJob(d), Taken);
      assert i in s'.heap;
    }
  }

  /** Its worker is free then, and the workers with disconnect jobs of that client wait for ever. */
  lemma DropSpare(s: State, w: WorkerId, r: set<WorkerId>)
    requires Inv(s) && Keeps(s, w) && w !in r
    ensures var s', c := Step(s, Check(w)), KeptClient(s, w);
      && w !in Spare(s, r) && Spare(s', r) <= Spare(s, r) + {w} && s'.workers == s.workers[w := None]
      && ((forall v :: v in Spare(s, r) ==> s.workers[v].None?) ==> Spare(s', r) == Spare(s, r) + {w})
  {
    var s', c := Step(s, Check(w)), KeptClient(s, w);
    DropIs(s, w);
    hide Step;
    forall v | v in s.workers && v != w
      ensures (Lost(s, v) ==> Lost(s', v)) && (Keeps(s', v) <==> Keeps(s, v)) && (s.workers[v].None? ==> !Lost(s', v))
      ensures Lost(s', v) ==> Lost(s, v) || (s.workers[v].Some? && !Keeps(s, v))
    {
      assert s.workers[v] != s.workers[w];
    }
  }

  lemma DropPool(s: State, w: WorkerId, r: set<WorkerId>)
    requires Inv(s) && Keeps(s, w) && w !in r
    ensures var p', q := PoolOf(Step(s, Check(w)), r), GiveUp(PoolOf(s, r), KeptClient(s, w));
      && p'.spare <= q.spare && p'.kept == q.kept && p'.lost == q.lost
      && ((forall v :: v in Spare(s, r) ==> s.workers[v].None?) ==> p' == q)
  {
    hide Step, Spare, Kept, Wrapped, Inv;
    DropSets(s, w);
    DropSpare(s, w, r);
    Fewer(Spare(Step(s, Check(w)), r), Spare(s, r) + {w});
  }

  lemma Fewer<T>(a: set<T>, b: set<T>)
    requires a <= b
    ensures |a| <= |b|
  {
    assert b == a + (b - a);
  }

  // ---------- a job is taken ----------

  lemma TakeIs(s: State, w: WorkerId)
    requires Placed(s) && w in s.workers && s.workers[w].None? && s.queue != []
    ensures var s', j := Step(s, Take(w)), s.queue[0];
      && j in s.heap && s.heap[j].stage == Queued
      && s' == s.(heap := s.heap[j := s.heap[j].(stage := Taken)], queue := s.queue[1..], workers := s.workers[w := Some(j)])
  {
  }

  lemma TakeSpare(s: State, w: WorkerId, r: set<WorkerId>)
    requires Placed(s) && w in s.workers && s.workers[w].None? && s.queue != [] && w !in r
    requires Addressed(s, s.queue[0])
    ensures var s', k := Step(s, Take(w)), s.heap[s.queue[0]].kind;
      && w in Spare(s, r)
      && Spare(s', r) == (if (k.DisconnectJob? && k.client in Wrapped(s)) || (k.ConnectJob? && k.client in Gone(s))
                          then Spare(s, r) - {w} else Spare(s, r))
  {
    var s', j := Step(s, Take(w)), s.queue[0];
    TakeIs(s, w);
    hide Step;
    forall v | v in s.workers && v != w
      ensures (Lost(s', v) <==> Lost(s, v)) && (Keeps(s', v) <==> Keeps(s, v))
    {
      assert s'.workers[v] == s.workers[v];
      assert s.workers[v].Some? ==> s.workers[v].value != j;
    }
    assert s'.workers[w] == Some(j) && s'.heap[j] == Job(s.heap[j].kind, Taken);
  }

  lemma TakeSets(s: State, w: WorkerId)
    requires Inv(s) && w in s.workers && s.workers[w].None? && s.queue != []
    ensures var s', k := Step(s, Take(w)), KindOf(s.heap, s.queue[0]);
      && Gone(s') == Gone(s) && Wrapped(s') == Wrapped(s)
      && Kept(s') == (if k.ConnectJob? && k.client in Gone(s) then Kept(s) + {k.client} else Kept(s))
      && Waiting(s') == Waiting(s)[1..] && Waiting(s)[0] == k
  {
    var s', j := Step(s, Take(w)), s.queue[0];
    TakeIs(s, w);
    hide Step;
    TakeUnchecked(s, w);
    assert JobOk(s, j);
    forall i | i in s.queue[1..]
      ensures KindOf(s'.heap, i) == KindOf(s.heap, i)
    {
    }
    KindsSame(s.heap, s'.heap, s.queue[1..]);
  }

  lemma TakeUnchecked(s: State, w: WorkerId)
    requires Placed(s) && w in s.workers && s.workers[w].None? && s.queue != []
    ensures var s', k := Step(s, Take(w)), KindOf(s.heap, s.queue[0]);
      forall c :: UncheckedConnect(s', c) <==> UncheckedConnect(s, c) || k == ConnectJob(c)
  {
    var s', j := Step(s, Take(w)), s.queue[0];
    TakeIs(s, w);
    hide Step;
    forall c
      ensures UncheckedConnect(s', c) <==> UncheckedConnect(s, c) || s.heap[j].kind == ConnectJob(c)
    {
      if UncheckedConnect(s, c) {
        var i :| i in s.heap && s.heap[i] == Job(ConnectJob(c), Taken);
        assert i != j && i in s'.heap && s'.heap[i] == s.heap[i];
      }
      if s.heap[j].kind == ConnectJob(c) { assert s'.heap[j] == Job(ConnectJob(c), Taken); }
      if UncheckedConnect(s', c) {
        var i :| i in s'.heap && s'.heap[i] == Job(ConnectJob(c), Taken);
        assert i == j || s.heap[i] == s'.heap[i];
      }
    }
  }

  lemma TakePool(s: State, w: WorkerId, r: set<WorkerId>)
    requires Inv(s) && w in s.workers && s.workers[w].None? && s.queue != [] && w !in r
    ensures var s' := Step(s, Take(w));
      && Waiting(s) != [] && PoolOf(s, r).spare > 0 && Gone(s') == Gone(s)
      && PoolOf(s', r) == Taking(PoolOf(s, r), Waiting(s)[0], Gone(s)) && Waiting(s') == Waiting(s)[1..]
  {
    hide Step, Spare, Kept, Wrapped, Gone, Placed, ClientOk;
    assert s.queue[0] in s.heap && JobOk(s, s.queue[0]) by { FirstWaits(s); }
    hide JobOk;
    TakeSets(s, w);
    TakeSpare(s, w, r);
    assert w in Spare(s, r);
    assert |Spare(s, r) - {w}| == |Spare(s, r)| - 1;
  }

  lemma FirstWaits(s: State)
    requires Placed(s) && s.queue != []
    ensures s.queue[0] in s.heap && s.heap[s.queue[0]].stage == Queued
  {
  }

  // ---------- the environment adds to the queue ----------

  /** A new job, and no client turned to Disconnect. */
  lemma AddView(s: State, s': State, j: JobId, kind: Kind, r: set<WorkerId>)
    requires Placed(s) && j !in s.heap && ClientsAlike(s, s')
    requires s'.heap == s.heap[j := Job(kind, Queued)] && s'.queue == s.queue + [j] && s'.workers == s.workers
    ensures PoolOf(s', r) == PoolOf(s, r) && Gone(s') == Gone(s) && Waiting(s') == Waiting(s) + [kind]
  {
    forall w | w in s.workers
      ensures (Lost(s', w) <==> Lost(s, w)) && (Keeps(s', w) <==> Keeps(s, w))
    {
    }
    assert Spare(s', r) == Spare(s, r);
    AddUnchecked(s, s', j, kind);
    assert Kept(s') == Kept(s) && Wrapped(s') == Wrapped(s);
    AddKinds(s, s', j, kind);
  }

  lemma AddUnchecked(s: State, s': State, j: JobId, kind: Kind)
    requires j !in s.heap && s'.heap == s.heap[j := Job(kind, Queued)]
    ensures forall c :: UncheckedConnect(s', c) <==> UncheckedConnect(s, c)
  {
    forall c
      ensures UncheckedConnect(s', c) <==> UncheckedConnect(s, c)
    {
      if UncheckedConnect(s, c) {
        var i :| i in s.heap && s.heap[i] == Job(ConnectJob(c), Taken);
        assert i in s'.heap && s'.heap[i] == s.heap[i];
      }
    }
  }

  lemma AddKinds(s: State, s': State, j: JobId, kind: Kind)
    requires Placed(s) && j !in s.heap
    requires s'.heap == s.heap[j := Job(kind, Queued)] && s'.queue == s.queue + [j]
    ensures Waiting(s') == Waiting(s) + [kind]
  {
    forall i | i in s.queue
      ensures KindOf(s'.heap, i) == KindOf(s.heap, i)
    {
    }
    KindsSame(s.heap, s'.heap, s.queue);
    KindsAppend(s'.heap, s.queue, j);
  }

  lemma NoJobsOf(s: State, c: ClientId)
    requires Inv(s) && c !in s.clients
    ensures forall i :: i in s.heap && !s.heap[i].kind.CustomJob? ==> s.heap[i].kind.client != c
  {
    forall i | i in s.heap
      ensures !s.heap[i].kind.CustomJob? ==> s.heap[i].kind.client != c
    {
      assert JobOk(s, i);
    }
  }

  lemma RegisterView(s: State, c: ClientId, r: set<WorkerId>)
    requires Inv(s)
    ensures SameView(s, Step(s, Register(c)), r)
  {
    if c !in s.clients { NoJobsOf(s, c); }
    hide Inv;
    var s' := Step(s, Register(c));
    assert s'.heap == s.heap && s'.queue == s.queue && s'.workers == s.workers;
    RegisterSets(s, c);
    hide Step, Gone, Wrapped, Kept;
    forall w | w in s.workers
      ensures (Lost(s', w) <==> Lost(s, w)) && (Keeps(s', w) <==> Keeps(s, w))
    {
      RegisterWorker(s, c, w);
    }
    hide Lost, Keeps;
    assert Spare(s', r) == Spare(s, r);
  }

  lemma RegisterWorker(s: State, c: ClientId, w: WorkerId)
    requires c !in s.clients ==> forall i :: i in s.heap && !s.heap[i].kind.CustomJob? ==> s.heap[i].kind.client != c
    ensures var s' := Step(s, Register(c)); (Lost(s', w) <==> Lost(s, w)) && (Keeps(s', w) <==> Keeps(s, w))
  {
  }

  lemma RegisterSets(s: State, c: ClientId)
    ensures var s' := Step(s, Register(c)); Gone(s') == Gone(s) && Wrapped(s') == Wrapped(s) && Kept(s') == Kept(s)
  {
    var s' := Step(s, Register(c));
    assert s'.heap == s.heap;
    forall d
      ensures UncheckedConnect(s', d) <==> UncheckedConnect(s, d)
    {
    }
    hide UncheckedConnect;
  }

  /** The client e turns to Disconnect: as far as the others are concerned nothing is won. */
  lemma TurnView(s: State, e: ClientId, j: JobId, es: seq<Event>, r: set<WorkerId>)
    requires Inv(s) && Attended(s) && Reserved(s, r)
    requires e in s.clients && s.clients[e].status != Disconnect && j !in s.heap
    ensures var s' := Disconnecting(s, e, j, es); var p' := Relieved(PoolOf(s', r), e);
      && Gone(s') == Gone(s) + {e} && Gone(s) - {e} == Gone(s) && Waiting(s') == Waiting(s) + [DisconnectJob(e)]
      && p'.spare <= PoolOf(s, r).spare && p'.kept == PoolOf(s, r).kept && p'.lost == PoolOf(s, r).lost
  {
    var s' := Disconnecting(s, e, j, es);
    ProperKinds(s, s', j, e);
    TurnSpare(s, e, j, es, r);
    TurnWrapped(s, e, j, es);
    TurnSets(s, e, j, es);
    hide Spare, Kept, Wrapped, Gone, Waiting, Inv, Attended, Reserved, Disconnecting;
  }

  lemma ProperKinds(s: State, s': State, j: JobId, e: ClientId)
    requires Inv(s) && j !in s.heap
    requires s'.heap == s.heap[j := Job(DisconnectJob(e), Queued)] && s'.queue == s.queue + [j]
    ensures Waiting(s') == Waiting(s) + [DisconnectJob(e)]
  {
    hide JobOk, ClientOk;
    AddKinds(s, s', j, DisconnectJob(e));
  }

  lemma TurnSets(s: State, e: ClientId, j: JobId, es: seq<Event>)
    requires e in s.clients && s.clients[e].status != Disconnect && j !in s.heap
    ensures var s' := Disconnecting(s, e, j, es);
      Gone(s') == Gone(s) + {e} && Gone(s) - {e} == Gone(s) && Kept(s') - {e} == Kept(s)
  {
    hide UncheckedConnect;
    AddUnchecked(s, Disconnecting(s, e, j, es), j, DisconnectJob(e));
  }

  lemma TurnWrapped(s: State, e: ClientId, j: JobId, es: seq<Event>)
    requires Inv(s) && e in s.clients && s.clients[e].status != Disconnect
    ensures Wrapped(Disconnecting(s, e, j, es)) == Wrapped(s) && e !in Wrapped(s)
  {
    assert ClientOk(s, e);
  }

  lemma TurnSpare(s: State, e: ClientId, j: JobId, es: seq<Event>, r: set<WorkerId>)
    requires Inv(s) && Attended(s) && Reserved(s, r)
    requires e in s.clients && s.clients[e].status != Disconnect && j !in s.heap
    ensures var s' := Disconnecting(s, e, j, es);
      |Spare(s', r)| + (if e in Kept(s') then 1 else 0) <= |Spare(s, r)|
  {
    hide ClientOk, JobOk;
    var s' := Disconnecting(s, e, j, es);
    forall w | w in s.workers
      ensures (Lost(s, w) ==> Lost(s', w)) && (Keeps(s, w) ==> Keeps(s', w))
    {
    }
    assert Spare(s', r) <= Spare(s, r);
    if e in Kept(s') {
      var w := TurnKeeper(s, e, j, es, r);
      assert w in Spare(s, r) && w !in Spare(s', r);
      Fewer(Spare(s', r), Spare(s, r) - {w});
    } else {
      Fewer(Spare(s', r), Spare(s, r));
    }
  }

  lemma TurnKeeper(s: State, e: ClientId, j: JobId, es: seq<Event>, r: set<WorkerId>) returns (w: WorkerId)
    requires Inv(s) && Attended(s) && Reserved(s, r)
    requires e in s.clients && s.clients[e].status != Disconnect && j !in s.heap
    requires UncheckedConnect(Disconnecting(s, e, j, es), e)
    ensures w in s.workers && w !in r && !Lost(s, w) && !Keeps(s, w) && Keeps(Disconnecting(s, e, j, es), w)
  {
    hide ClientOk, JobOk, Placed;
    var s' := Disconnecting(s, e, j, es);
    var i :| i in s'.heap && s'.heap[i] == Job(ConnectJob(e), Taken);
    assert i in s.heap && s.heap[i] == s'.heap[i];
    w := HolderOf(s, i);
  }

  // ---------- the condition goes backwards ----------

  /** The workers set aside each have a connect job in hand that is past its check. */
  ghost predicate Reserved(s: State, r: set<WorkerId>) {
    forall w :: w in r ==>
      Holds(s, w) && s.heap[s.workers[w].value].kind.ConnectJob? && s.heap[s.workers[w].value].stage == Checked
  }

  /** A worker has a disconnect job of the client in hand and is not past the wait. */
  predicate TakenDisconnect(s: State, c: ClientId) {
    exists j :: j in s.heap && s.heap[j].kind == DisconnectJob(c) && s.heap[j].stage in {Taken, Checked}
  }

  /** The client was reported, or a worker is past the wait, or the connect job was not dropped and a
      disconnect job is in hand or can be taken while the workers in r do nothing. */
  predicate Reportable(s: State, c: ClientId, r: set<WorkerId>)
    requires c in s.clients
  {
    || Reported(s.clients[c].events)
    || PastTheWait(s, c)
    || (!s.clients[c].dropped && (TakenDisconnect(s, c) || Serves(PoolOf(s, r), Gone(s), Waiting(s), c)))
  }

  lemma ReportedBack(s: State, l: Label, c: ClientId)
    requires c in s.clients && c in Step(s, l).clients && Reported(Step(s, l).clients[c].events)
    ensures Reported(s.clients[c].events) || PastTheWait(s, c)
  {
    var s' := Step(s, l);
    if l.Advance? {
      if Holds(s, l.w) && s.heap[s.workers[l.w].value] == Job(DisconnectJob(c), Sent) {
        assert PastTheWait(s, c);
      }
    } else if s'.clients[c].events != s.clients[c].events {
      assert s'.clients[c].events == s.clients[c].events + [Kicked];
    }
  }

  lemma PastBack(s: State, l: Label, c: ClientId)
    requires Inv(s) && c in s.clients && PastTheWait(Step(s, l), c)
    ensures PastTheWait(s, c) || (!s.clients[c].dropped && TakenDisconnect(s, c))
  {
    assert ClientOk(s, c);
    assert s.clients[c].dropped ==> s.clients[c].jobs == 255;
    hide ClientOk, JobOk, Placed, Inv, Step;
    var j :| j in Step(s, l).heap && Step(s, l).heap[j] == Job(DisconnectJob(c), Sent);
    PastJob(s, l, j, c);
  }

  lemma PastJob(s: State, l: Label, j: JobId, c: ClientId)
    requires c in s.clients && j in Step(s, l).heap && Step(s, l).heap[j] == Job(DisconnectJob(c), Sent)
    ensures j in s.heap && s.heap[j].kind == DisconnectJob(c)
    ensures s.heap[j].stage == Sent || (s.heap[j].stage == Checked && s.clients[c].jobs < 1)
  {
  }

  lemma TakenBack(s: State, l: Label, c: ClientId)
    requires TakenDisconnect(Step(s, l), c)
    ensures TakenDisconnect(s, c) ||
      (l.Take? && l.w in s.workers && s.workers[l.w].None? && s.queue != [] && KindOf(s.heap, s.queue[0]) == DisconnectJob(c))
  {
    hide Step;
    var s' := Step(s, l);
    var j :| j in s'.heap && s'.heap[j].kind == DisconnectJob(c) && s'.heap[j].stage in {Taken, Checked};
    TakenJobBack(s, l, j, c);
  }

  lemma TakenJobBack(s: State, l: Label, j: JobId, c: ClientId)
    requires j in Step(s, l).heap && Step(s, l).heap[j].kind == DisconnectJob(c) && Step(s, l).heap[j].stage in {Taken, Checked}
    ensures j in s.heap && s.heap[j].kind == DisconnectJob(c)
    ensures s.heap[j].stage in {Taken, Checked} ||
      (l.Take? && l.w in s.workers && s.workers[l.w].None? && s.queue != [] && s.queue[0] == j)
  {
  }

  /** Where the disconnect job of the client is. */
  lemma WhereAnnounced(s: State, c: ClientId)
    requires Proper(s) && c in Gone(s) && !Reported(s.clients[c].events) && !PastTheWait(s, c) && !TakenDisconnect(s, c)
    ensures DisconnectJob(c) in Waiting(s)
  {
    hide JobOk, ClientOk, Ordered, Reported;
    assert Announced(s, c);
    var j :| j in s.heap && s.heap[j].kind == DisconnectJob(c);
    assert Fits(s.heap[j]);
    var i :| 0 <= i < |s.queue| && s.queue[i] == j;
    KindsAt(s.heap, s.queue, i);
  }

  lemma ServesView(s: State, s': State, c: ClientId, r: set<WorkerId>)
    requires SameView(s, s', r) && Serves(PoolOf(s', r), Gone(s'), Waiting(s'), c)
    ensures Serves(PoolOf(s, r), Gone(s), Waiting(s), c)
  {
  }

  lemma CheckBack(s: State, w: WorkerId, c: ClientId, r: set<WorkerId>)
    requires Inv(s) && Reserved(s, r) && c in Gone(s) && c !in Wrapped(Step(s, Check(w)))
    requires var s' := Step(s, Check(w)); Serves(PoolOf(s', r), Gone(s'), Waiting(s'), c)
    ensures Serves(PoolOf(s, r), Gone(s), Waiting(s), c)
  {
    hide Step, Inv, SameView, PoolOf, Gone, Wrapped, Kept, Waiting, Spare;
    var s' := Step(s, Check(w));
    if Keeps(s, w) {
      var d := KeptClient(s, w);
      DropPool(s, w, r);
      DropSets(s, w);
      MoreSpare(PoolOf(s', r), GiveUp(PoolOf(s, r), d), Gone(s), Waiting(s), c);
      KeptInPool(s, d, r);
    } else {
      CheckView(s, w, r);
      ServesView(s, s', c, r);
    }
  }

  lemma KeptInPool(s: State, d: ClientId, r: set<WorkerId>)
    ensures d in PoolOf(s, r).kept <==> d in Kept(s)
  {
  }

  lemma TakeBack(s: State, w: WorkerId, c: ClientId, r: set<WorkerId>)
    requires Inv(s) && Reserved(s, r)
    requires var s' := Step(s, Take(w)); Serves(PoolOf(s', r), Gone(s'), Waiting(s'), c)
    ensures Serves(PoolOf(s, r), Gone(s), Waiting(s), c)
  {
    hide Placed, JobOk, ClientOk, PoolOf, Gone, Waiting;
    if w in s.workers && s.workers[w].None? && s.queue != [] {
      TakePool(s, w, r);
      hide Step;
    } else {
      assert Step(s, Take(w)) == s;
    }
  }

  /** A job was added while a disconnect job of c waits. */
  lemma AddBack(s: State, s': State, j: JobId, kind: Kind, c: ClientId, r: set<WorkerId>)
    requires Placed(s) && j !in s.heap && ClientsAlike(s, s')
    requires s'.heap == s.heap[j := Job(kind, Queued)] && s'.queue == s.queue + [j] && s'.workers == s.workers
    requires DisconnectJob(c) in Waiting(s) && Serves(PoolOf(s', r), Gone(s'), Waiting(s'), c)
    ensures Serves(PoolOf(s, r), Gone(s), Waiting(s), c)
  {
    AddView(s, s', j, kind, r);
    hide PoolOf, Gone, Waiting, Placed, ClientsAlike;
    QueuedBehind(PoolOf(s, r), Gone(s), Waiting(s), [kind], c);
  }

  lemma TurnBack(s: State, e: ClientId, j: JobId, es: seq<Event>, c: ClientId, r: set<WorkerId>)
    requires Inv(s) && Attended(s) && Reserved(s, r)
    requires e in s.clients && s.clients[e].status != Disconnect && j !in s.heap && c in Gone(s)
    requires var s' := Disconnecting(s, e, j, es); Serves(PoolOf(s', r), Gone(s'), Waiting(s'), c)
    requires DisconnectJob(c) in Waiting(s)
    ensures Serves(PoolOf(s, r), Gone(s), Waiting(s), c)
  {
    var s' := Disconnecting(s, e, j, es);
    TurnView(s, e, j, es, r);
    NotWaiting(s, e);
    assert e != c;
    hide PoolOf, Gone, Waiting, Placed, Disconnecting, Inv;
    QueuedBehind(PoolOf(s', r), Gone(s'), Waiting(s), [DisconnectJob(e)], c);
    NoHelp(PoolOf(s', r), Gone(s), Waiting(s), c, e);
    MoreSpare(Relieved(PoolOf(s', r), e), PoolOf(s, r), Gone(s), Waiting(s), c);
  }

  lemma NotWaiting(s: State, e: ClientId)
    requires Inv(s) && e in s.clients && s.clients[e].status != Disconnect
    ensures DisconnectJob(e) !in Waiting(s)
  {
    NotAnnouncedIdle(s, e);
    hide JobOk, ClientOk;
    forall i | 0 <= i < |s.queue|
      ensures Waiting(s)[i] != DisconnectJob(e)
    {
      KindsAt(s.heap, s.queue, i);
    }
  }

  lemma TurnIs(s: State, l: Label)
    requires l.Kick? || l.Error? || (l.Read? && l.input.Malformed?)
    ensures Step(s, l) == s ||
      (l.c in s.clients && l.j !in s.heap && exists es :: Step(s, l) == Disconnecting(s, l.c, l.j, es))
  {
    if l.Error? && l.c in s.clients && l.j !in s.heap {
      assert s.clients[l.c].events + [] == s.clients[l.c].events;
      assert Step(s, l) == Disconnecting(s, l.c, l.j, []);
    } else if Step(s, l) != s {
      assert Step(s, l) == Disconnecting(s, l.c, l.j, [Kicked]);
    }
  }

  /** A kick, an error or a malformed read. */
  lemma KickBack(s: State, l: Label, c: ClientId, r: set<WorkerId>)
    requires Proper(s) && Reserved(s, r) && c in Gone(s) && DisconnectJob(c) in Waiting(s)
    requires l.Kick? || l.Error? || (l.Read? && l.input.Malformed?)
    requires var s' := Step(s, l); Serves(PoolOf(s', r), Gone(s'), Waiting(s'), c)
    ensures Serves(PoolOf(s, r), Gone(s), Waiting(s), c)
  {
    hide Step, PoolOf, Waiting, JobOk, ClientOk, Placed, AllAnnounced, Ordered, Reserved;
    TurnIs(s, l);
    var s' := Step(s, l);
    if s' != s {
      var es :| s' == Disconnecting(s, l.c, l.j, es);
      if s.clients[l.c].status == Disconnect {
        AddBack(s, s', l.j, DisconnectJob(l.c), c, r);
      } else {
        TurnBack(s, l.c, l.j, es, c, r);
      }
    }
  }

  lemma OtherBack(s: State, l: Label, c: ClientId, r: set<WorkerId>)
    requires Proper(s) && Reserved(s, r) && DisconnectJob(c) in Waiting(s)
    requires l.Register? || l.EnqueueConnect? || l.Custom? || (l.Read? && !l.input.Malformed?)
    requires var s' := Step(s, l); Serves(PoolOf(s', r), Gone(s'), Waiting(s'), c)
    ensures Serves(PoolOf(s, r), Gone(s), Waiting(s), c)
  {
    hide PoolOf, Waiting, Gone, JobOk, ClientOk, Placed, AllAnnounced, Ordered, Reserved, SameView;
    var s' := Step(s, l);
    match l
    case Register(d) =>
      RegisterView(s, d, r);
      ServesView(s, s', c, r);
    case EnqueueConnect(d, j) => if s' != s { AddBack(s, s', j, ConnectJob(d), c, r); }
    case Custom(j) => if s' != s { AddBack(s, s', j, CustomJob, c, r); }
    case Read(d, input, j) => if s' != s { AddBack(s, s', j, ProcessJob(d, input.packet), c, r); }
  }

  /** Unless a worker is started or one that was set aside goes on, no step makes it possible to report
      the client. */
  lemma ReportableBack(s: State, l: Label, c: ClientId, r: set<WorkerId>)
    requires Proper(s) && Reserved(s, r) && Reserved(Step(s, l), r) && c in Gone(s) && !l.Spawn?
    requires c in Step(s, l).clients && Reportable(Step(s, l), c, r)
    ensures Reportable(s, c, r)
  {
    hide Step, Serves, Reserved, Inv, AllAnnounced, Attended, Ordered, PoolOf, Waiting, Gone, PastTheWait, TakenDisconnect, Reported;
    var s' := Step(s, l);
    assert c in s.clients by { GoneIs(s, c); }
    if Reported(s'.clients[c].events) {
      ReportedBack(s, l, c);
    } else if PastTheWait(s', c) {
      PastBack(s, l, c);
    } else if !Reported(s.clients[c].events) && !PastTheWait(s, c) {
      HistoryGrows(s, l, c);
      ProperPlaced(s);
      if TakenDisconnect(s', c) {
        TakenBack(s, l, c);
        if !TakenDisconnect(s, c) { FirstServes(s, l.w, c, r); }
      } else if !TakenDisconnect(s, c) {
        ServesBack(s, l, c, r);
      }
    }
  }

  lemma GoneIs(s: State, c: ClientId)
    ensures c in Gone(s) <==> c in s.clients && s.clients[c].status == Disconnect
    ensures c in Wrapped(s) <==> c in s.clients && s.clients[c].dropped
  {
  }

  lemma ProperPlaced(s: State)
    requires Proper(s)
    ensures Placed(s)
  {
  }

  /** The first job that waits is the one. */
  lemma FirstServes(s: State, w: WorkerId, c: ClientId, r: set<WorkerId>)
    requires Proper(s) && Reserved(s, r) && w in s.workers && s.workers[w].None? && s.queue != []
    requires KindOf(s.heap, s.queue[0]) == DisconnectJob(c)
    ensures Serves(PoolOf(s, r), Gone(s), Waiting(s), c)
  {
    hide Step, JobOk, ClientOk, Placed, AllAnnounced, Attended, Ordered, PoolOf;
    TakePool(s, w, r);
    KindsAt(s.heap, s.queue, 0);
  }

  lemma ServesBack(s: State, l: Label, c: ClientId, r: set<WorkerId>)
    requires Proper(s) && Reserved(s, r) && c in Gone(s) && !l.Spawn?
    requires !Reported(s.clients[c].events) && !PastTheWait(s, c) && !TakenDisconnect(s, c)
    requires var s' := Step(s, l);
      c in s'.clients && !s'.clients[c].dropped && Serves(PoolOf(s', r), Gone(s'), Waiting(s'), c)
    ensures Serves(PoolOf(s, r), Gone(s), Waiting(s), c)
  {
    WhereAnnounced(s, c);
    hide Step, Serves, Reserved, JobOk, ClientOk, Placed, AllAnnounced, Attended, Ordered, PoolOf, Waiting, Gone;
    if l.Advance? {
      AdvanceView(s, l.w, r);
      ServesView(s, Step(s, l), c, r);
    } else if l.Check? {
      GoneIs(Step(s, l), c);
      CheckBack(s, l.w, c, r);
    } else if l.Take? {
      TakeBack(s, l.w, c, r);
    } else if l.Kick? || l.Error? || (l.Read? && l.input.Malformed?) {
      KickBack(s, l, c, r);
    } else {
      OtherBack(s, l, c, r);
    }
  }

  /** The connect jobs that were dropped are told by `jobs`. */
  lemma WrappedIff(ls: seq<Label>, c: ClientId)
    ensures var s := Run(Start, ls); c in Wrapped(s) <==> c in s.clients && s.clients[c].jobs == 255
  {
    hide Run, Step;
    if c in Run(Start, ls).clients {
      JobsCount(ls, c);
      AtMostOneProcessJob(ls, c);
    }
  }
}
