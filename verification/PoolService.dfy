/** When a client can be served without a new worker: for every packet that may still come, the exact
    condition under which it can be parsed and processed, with the steps that do it. */
module PoolService {

  import opened ClientProtocol
  import opened ClientOutcomes
  import opened PoolModel
  import opened PoolReports
  import opened PoolLimits

  // ---------- the condition ----------

  /** Whether all jobs of q can be taken, and one more. Every kept connect job may be given up at any
      time. */
  predicate Drains(p: Pool, gone: set<ClientId>, q: seq<Kind>)
    decreases |q|, p.kept
  {
    (exists d :: d in p.kept && Drains(GiveUp(p, d), gone, q)) ||
    (p.spare > 0 && (q == [] || Drains(Taking(p, q[0], gone), gone, q[1..])))
  }

  lemma {:induction false} RoomForMore(p: Pool, p': Pool, gone: set<ClientId>, q: seq<Kind>)
    requires Drains(p, gone, q) && p.spare <= p'.spare && p'.kept == p.kept && p'.lost == p.lost
    ensures Drains(p', gone, q)
    decreases |q|, p.kept
  {
    if d :| d in p.kept && Drains(GiveUp(p, d), gone, q) {
      RoomForMore(GiveUp(p, d), GiveUp(p', d), gone, q);
    } else if q != [] {
      RoomForMore(Taking(p, q[0], gone), Taking(p', q[0], gone), gone, q[1..]);
    }
  }

  /** A client that disconnects makes nothing possible. */
  lemma {:induction false} NoGain(p: Pool, gone: set<ClientId>, q: seq<Kind>, e: ClientId)
    requires Drains(p, gone + {e}, q) && DisconnectJob(e) !in q
    ensures Drains(Relieved(p, e), gone - {e}, q)
    decreases |q|, p.kept
  {
    var p' := Relieved(p, e);
    if d :| d in p.kept && Drains(GiveUp(p, d), gone + {e}, q) {
      NoGain(GiveUp(p, d), gone, q, e);
      if d == e {
        assert Relieved(GiveUp(p, d), e) == p';
      } else {
        assert Relieved(GiveUp(p, d), e) == GiveUp(p', d);
      }
    } else if q != [] {
      var n := Taking(p, q[0], gone + {e});
      NoGain(n, gone, q[1..], e);
      NoHelpTaking(p, q[0], gone, e);
      RoomForMore(Relieved(n, e), Taking(p', q[0], gone - {e}), gone - {e}, q[1..]);
    }
  }

  /** With more spare workers than blocking jobs in the queue, every connect job can be kept. */
  lemma {:induction false} EnoughToDrain(p: Pool, gone: set<ClientId>, q: seq<Kind>)
    requires p.spare > Cost(q, p.lost, gone)
    ensures Drains(p, gone, q)
    decreases |q|
  {
    if q != [] { EnoughToDrain(Taking(p, q[0], gone), gone, q[1..]); }
  }

  /** While no unchecked connect job of a disconnecting client is in hand or waits, the condition is a
      count. */
  lemma {:induction false} DrainsIffCount(p: Pool, gone: set<ClientId>, q: seq<Kind>)
    requires p.kept == {} && forall d :: d in gone ==> ConnectJob(d) !in q
    ensures Drains(p, gone, q) <==> Cost(q, p.lost, gone) < p.spare
    decreases |q|
  {
    if q != [] && p.spare > 0 {
      assert q == [q[0]] + q[1..];
      DrainsIffCount(Taking(p, q[0], gone), gone, q[1..]);
    }
  }

  /** The first n jobs that wait can be taken, and one more. */
  predicate DrainsTo(s: State, n: nat) {
    n <= |s.queue| && Drains(PoolOf(s, {}), Gone(s), Waiting(s)[..n])
  }

  /** All of them can. */
  predicate Serving(s: State) {
    Drains(PoolOf(s, {}), Gone(s), Waiting(s))
  }

  lemma ServingIs(s: State)
    ensures Serving(s) <==> DrainsTo(s, |s.queue|)
  {
    assert Waiting(s)[..|s.queue|] == Waiting(s);
  }

  // ---------- the condition goes backwards ----------

  lemma SameDrains(s: State, t: State, n: nat)
    requires SameView(s, t, {}) && DrainsTo(t, n) && t.queue == s.queue
    ensures DrainsTo(s, n)
  {
  }

  lemma CheckDrains(s: State, w: WorkerId, n: nat)
    requires Proper(s) && DrainsTo(Step(s, Check(w)), n)
    ensures DrainsTo(s, n)
  {
    hide Step, JobOk, ClientOk, Placed, AllAnnounced, Attended, Ordered, SameView, PoolOf, Gone, Wrapped, Kept, Waiting, Spare;
    var t := Step(s, Check(w));
    CheckKeepsQueue(s, w);
    if Keeps(s, w) {
      var d := KeptClient(s, w);
      DropPool(s, w, {});
      DropSets(s, w);
      RoomForMore(PoolOf(t, {}), GiveUp(PoolOf(s, {}), d), Gone(s), Waiting(s)[..n]);
      KeptInPool(s, d, {});
    } else {
      CheckView(s, w, {});
      SameDrains(s, t, n);
    }
  }

  lemma CheckKeepsQueue(s: State, w: WorkerId)
    ensures Step(s, Check(w)).queue == s.queue
  {
  }

  lemma AdvanceKeepsQueue(s: State, w: WorkerId)
    ensures Step(s, Advance(w)).queue == s.queue
  {
  }

  lemma TakeDrains(s: State, w: WorkerId, n: nat)
    requires Proper(s) && w in s.workers && s.workers[w].None? && s.queue != [] && DrainsTo(Step(s, Take(w)), n)
    ensures DrainsTo(s, n + 1)
  {
    ProperInv(s);
    ProperPlaced(s);
    TakeIs(s, w);
    hide Step, Proper, PoolOf, Gone, Waiting;
    TakePool(s, w, {});
    var q := Waiting(s)[..n + 1];
    assert q[0] == Waiting(s)[0] && q[1..] == Waiting(s)[1..][..n];
  }

  lemma AddDrains(s: State, t: State, j: JobId, kind: Kind, n: nat)
    requires Placed(s) && j !in s.heap && ClientsAlike(s, t)
    requires t.heap == s.heap[j := Job(kind, Queued)] && t.queue == s.queue + [j] && t.workers == s.workers
    requires n <= |s.queue| && DrainsTo(t, n)
    ensures DrainsTo(s, n)
  {
    AddView(s, t, j, kind, {});
    hide PoolOf, Gone, Waiting, Placed, ClientsAlike;
    assert (Waiting(s) + [kind])[..n] == Waiting(s)[..n];
  }

  lemma TurnDrains(s: State, e: ClientId, j: JobId, es: seq<Event>, n: nat)
    requires Proper(s) && e in s.clients && s.clients[e].status != Disconnect && j !in s.heap
    requires n <= |s.queue| && DrainsTo(Disconnecting(s, e, j, es), n)
    ensures DrainsTo(s, n)
  {
    var t := Disconnecting(s, e, j, es);
    ProperInv(s);
    NoneReserved(s);
    hide PoolOf, Gone, Waiting, Proper, Disconnecting, Reserved;
    TurnView(s, e, j, es, {});
    NotWaiting(s, e);
    var q := Waiting(s)[..n];
    assert (Waiting(s) + [DisconnectJob(e)])[..n] == q;
    NoGain(PoolOf(t, {}), Gone(s), q, e);
    RoomForMore(Relieved(PoolOf(t, {}), e), PoolOf(s, {}), Gone(s), q);
  }

  lemma NoneReserved(s: State)
    ensures Reserved(s, {})
  {
  }

  /** A kick, an error or a malformed read. */
  lemma KickDrains(s: State, l: Label, n: nat)
    requires Proper(s) && n <= |s.queue| && DrainsTo(Step(s, l), n)
    requires l.Kick? || l.Error? || (l.Read? && l.input.Malformed?)
    ensures DrainsTo(s, n)
  {
    hide Step, DrainsTo, JobOk, ClientOk, Placed, AllAnnounced, Ordered, Attended;
    TurnIs(s, l);
    var t := Step(s, l);
    if t != s {
      var es :| t == Disconnecting(s, l.c, l.j, es);
      if s.clients[l.c].status == Disconnect {
        AddDrains(s, t, l.j, DisconnectJob(l.c), n);
      } else {
        TurnDrains(s, l.c, l.j, es, n);
      }
    }
  }

  lemma OtherDrains(s: State, l: Label, n: nat)
    requires Proper(s) && n <= |s.queue| && DrainsTo(Step(s, l), n)
    requires l.Register? || l.EnqueueConnect? || l.Custom? || (l.Read? && !l.input.Malformed?)
    ensures DrainsTo(s, n)
  {
    hide DrainsTo, JobOk, ClientOk, Placed, AllAnnounced, Ordered, Attended, SameView;
    var t := Step(s, l);
    match l
    case Register(d) =>
      RegisterView(s, d, {});
      SameDrains(s, t, n);
    case EnqueueConnect(d, j) => if t != s { AddDrains(s, t, j, ConnectJob(d), n); }
    case Custom(j) => if t != s { AddDrains(s, t, j, CustomJob, n); }
    case Read(d, input, j) => if t != s { AddDrains(s, t, j, ProcessJob(d, input.packet), n); }
  }

  lemma Takes(s: State, l: Label)
    requires Proper(s)
    ensures |TakenBy(s, l)| <= 1
    ensures TakenBy(s, l) != [] <==> l.Take? && l.w in s.workers && s.workers[l.w].None? && s.queue != []
    ensures l.Take? && TakenBy(s, l) == [] ==> Step(s, l) == s
  {
    ProperPlaced(s);
    hide Proper, Placed;
    if l.Take? && l.w in s.workers && s.workers[l.w].None? && s.queue != [] {
      ProperPlaced(s);
      TakeIs(s, l.w);
    }
  }

  lemma WorkDrains(s: State, l: Label, n: nat)
    requires Proper(s) && (l.Check? || l.Advance?) && DrainsTo(Step(s, l), n)
    ensures DrainsTo(s, n)
  {
    hide Step, DrainsTo, Proper, SameView;
    if l.Check? {
      CheckDrains(s, l.w, n);
    } else {
      ProperInv(s);
      AdvanceView(s, l.w, {});
      AdvanceKeepsQueue(s, l.w);
      SameDrains(s, Step(s, l), n);
    }
  }

  /** Unless a worker is started, no step makes it possible to take further jobs of those that wait. */
  lemma DrainsBack(s: State, l: Label, n: nat)
    requires Proper(s) && !l.Spawn? && n + |TakenBy(s, l)| <= |s.queue| && DrainsTo(Step(s, l), n)
    ensures DrainsTo(s, n + |TakenBy(s, l)|)
  {
    hide *;
    Takes(s, l);
    if l.Take? {
      if TakenBy(s, l) != [] { TakeDrains(s, l.w, n); }
    } else if l.Check? || l.Advance? {
      WorkDrains(s, l, n);
    } else if l.Kick? || l.Error? || (l.Read? && l.input.Malformed?) {
      KickDrains(s, l, n);
    } else {
      OtherDrains(s, l, n);
    }
  }

  // ---------- when the condition fails ----------

  /** A free worker can take a job. */
  lemma FreeDrains(s: State, l: Label)
    requires Proper(s) && TakenBy(s, l) != []
    ensures DrainsTo(s, 0)
  {
    Takes(s, l);
    assert l.w in Spare(s, {});
    hide Spare, Proper, TakenBy;
  }

  lemma QueueLength(s: State, l: Label)
    requires Proper(s)
    ensures |s.queue| <= |Step(s, l).queue| + |TakenBy(s, l)|
  {
    ProperPlaced(s);
    QueueStep(s, l);
    assert |s.queue + AddedBy(s, l)| == |TakenBy(s, l) + Step(s, l).queue|;
  }

  /** While the first n jobs and one more cannot be taken, n counts down with every job that is. */
  lemma FailsOn(s: State, l: Label, n: nat)
    requires Proper(s) && !l.Spawn? && n <= |s.queue| && !DrainsTo(s, n)
    ensures |TakenBy(s, l)| <= n
    ensures var m := n - |TakenBy(s, l)|; m <= |Step(s, l).queue| && !DrainsTo(Step(s, l), m)
  {
    hide *;
    Takes(s, l);
    QueueLength(s, l);
    if n == 0 && TakenBy(s, l) != [] { FreeDrains(s, l); }
    var m := n - |TakenBy(s, l)|;
    if DrainsTo(Step(s, l), m) { DrainsBack(s, l, m); }
  }

  /** A packet of client c that was parsed after those in `par` waits behind n jobs. */
  ghost predicate Behindhand(s: State, c: ClientId, par: seq<Packet>, n: nat) {
    c in s.clients &&
    var k := s.clients[c];
    k.parsed == par || (|k.parsed| == |par| + 1 && exists i: nat :: n <= i && Waits(s, i, c))
  }

  lemma WaitingBusy(s: State, c: ClientId, i: nat)
    requires Proper(s) && c in s.clients && Waits(s, i, c)
    ensures s.clients[c].status != Idle && |Begun(s.clients[c].events)| + 1 == |s.clients[c].parsed|
  {
    assert s.queue[i] in Outstanding(s, c);
    assert ClientOk(s, c) && JobOk(s, s.queue[i]);
  }

  /** Only a read of an idle client parses a packet. */
  lemma ParsedStep(s: State, l: Label, c: ClientId)
    requires c in s.clients
    ensures var t := Step(s, l);
      c in t.clients &&
      (t.clients[c].parsed == s.clients[c].parsed ||
       (s.clients[c].status == Idle && |t.clients[c].parsed| == |s.clients[c].parsed| + 1 && Waits(t, |s.queue|, c)))
  {
    hide CheckRegion, AdvanceRegion;
    if l.Check? && Holds(s, l.w) && Addressed(s, s.workers[l.w].value) {
      CheckParses(s, l.w, s.workers[l.w].value, c);
    } else if l.Advance? && Holds(s, l.w) && !s.heap[s.workers[l.w].value].kind.CustomJob? &&
              Addressed(s, s.workers[l.w].value) {
      AdvanceParses(s, l.w, s.workers[l.w].value, c);
    }
  }

  lemma CheckParses(s: State, w: WorkerId, j: JobId, c: ClientId)
    requires c in s.clients && j in s.heap && Addressed(s, j)
    ensures c in CheckRegion(s, w, j).clients && CheckRegion(s, w, j).clients[c].parsed == s.clients[c].parsed
    ensures CheckRegion(s, w, j).clients[c].status == s.clients[c].status
  {
  }

  lemma AdvanceParses(s: State, w: WorkerId, j: JobId, c: ClientId)
    requires c in s.clients && j in s.heap && !s.heap[j].kind.CustomJob? && Addressed(s, j)
    ensures c in AdvanceRegion(s, w, j).clients && AdvanceRegion(s, w, j).clients[c].parsed == s.clients[c].parsed
    ensures AdvanceRegion(s, w, j).clients[c].status == Disconnect <==> s.clients[c].status == Disconnect
  {
  }

  /** A job that waits goes on waiting, one place ahead when another is taken. */
  lemma WaitsOn(s: State, l: Label, i: nat, c: ClientId)
    requires Proper(s) && Waits(s, i, c) && |TakenBy(s, l)| <= i
    ensures Waits(Step(s, l), i - |TakenBy(s, l)|, c)
  {
    hide *;
    Takes(s, l);
    if l.Take? {
      if TakenBy(s, l) != [] { WaitsTake(s, l.w, i, c); }
    } else if l.Check? || l.Advance? {
      WaitsWork(s, l, i, c);
    } else {
      WaitsAdd(s, l, i, c);
    }
  }

  lemma WaitsTake(s: State, w: WorkerId, i: nat, c: ClientId)
    requires Proper(s) && w in s.workers && s.workers[w].None? && s.queue != [] && Waits(s, i, c) && i > 0
    ensures Waits(Step(s, Take(w)), i - 1, c)
  {
    ProperPlaced(s);
    TakeIs(s, w);
    hide Proper, Step;
    assert s.queue[0] != s.queue[i];
  }

  lemma WaitsWork(s: State, l: Label, i: nat, c: ClientId)
    requires Proper(s) && (l.Check? || l.Advance?) && Waits(s, i, c)
    ensures Waits(Step(s, l), i, c)
  {
    ProperPlaced(s);
    WorkerElsewhere(s, l, s.queue[i]);
    hide Proper, Placed, Step;
  }

  lemma WaitsAdd(s: State, l: Label, i: nat, c: ClientId)
    requires !l.Take? && !l.Check? && !l.Advance? && Waits(s, i, c)
    ensures Waits(Step(s, l), i, c)
  {
  }

  lemma WorkerElsewhere(s: State, l: Label, j: JobId)
    requires Placed(s) && j in s.heap && s.heap[j].stage == Queued && (l.Check? || l.Advance?)
    ensures var t := Step(s, l); t.queue == s.queue && j in t.heap && t.heap[j] == s.heap[j]
  {
    assert Holds(s, l.w) ==> s.workers[l.w].value != j;
    hide Placed;
  }

  lemma BehindhandStep(s: State, l: Label, c: ClientId, par: seq<Packet>, n: nat)
    requires Proper(s) && Behindhand(s, c, par, n) && n <= |s.queue| && |TakenBy(s, l)| <= n
    ensures Behindhand(Step(s, l), c, par, n - |TakenBy(s, l)|)
  {
    ParsedStep(s, l, c);
    hide Step, Proper, TakenBy, Waits;
    if s.clients[c].parsed != par {
      var i: nat :| n <= i && Waits(s, i, c);
      WaitingBusy(s, c, i);
      WaitsOn(s, l, i, c);
    }
  }

  /** What stays so while the condition fails: no job behind those n is taken, and no packet parsed after
      those in `par` is begun. */
  lemma {:induction false} FailsRun(s: State, ls: seq<Label>, c: ClientId)
    requires Proper(s) && NoSpawn(ls) && c in s.clients && !DrainsTo(s, |s.queue|)
    ensures |TakenIn(s, ls)| <= |s.queue|
    ensures var t, m := Run(s, ls), |s.queue| - |TakenIn(s, ls)|;
      Proper(t) && m <= |t.queue| && !DrainsTo(t, m) && Behindhand(t, c, s.clients[c].parsed, m)
  {
    hide Proper, Step, DrainsTo, TakenBy, Behindhand;
    if ls != [] {
      var before, l := ls[..|ls| - 1], ls[|ls| - 1];
      FailsRun(s, before, c);
      var t, m := Run(s, before), |s.queue| - |TakenIn(s, before)|;
      FailsOn(t, l, m);
      BehindhandStep(t, l, c, s.clients[c].parsed, m);
      StepProper(t, l);
    } else {
      NotBehind(s, c);
    }
  }

  lemma NotBehind(s: State, c: ClientId)
    requires c in s.clients
    ensures Behindhand(s, c, s.clients[c].parsed, |s.queue|)
  {
  }

  /** Some packet that was parsed after state s is begun in the run. */
  predicate Begins(s: State, ls: seq<Label>, c: ClientId)
    requires c in s.clients
  {
    c in Run(s, ls).clients && |Begun(Run(s, ls).clients[c].events)| > |s.clients[c].parsed|
  }

  lemma NoneBegun(s: State, c: ClientId, par: seq<Packet>, n: nat)
    requires Proper(s) && Behindhand(s, c, par, n)
    ensures |Begun(s.clients[c].events)| <= |par|
  {
    hide JobOk, ClientOk, Placed, AllAnnounced, Attended, Ordered, Waits;
    if s.clients[c].parsed == par {
      EventOrder(s, c);
    } else {
      var i: nat :| n <= i && Waits(s, i, c);
      WaitingBusy(s, c, i);
    }
  }

  lemma NeverBegins(s: State, ls: seq<Label>, c: ClientId)
    requires Proper(s) && NoSpawn(ls) && c in s.clients && !Serving(s)
    ensures !Begins(s, ls, c)
  {
    hide Proper, Serving, Step, DrainsTo, Behindhand, Begun;
    ServingIs(s);
    FailsRun(s, ls, c);
    NoneBegun(Run(s, ls), c, s.clients[c].parsed, |s.queue| - |TakenIn(s, ls)|);
  }

  // ---------- the workers empty the queue ----------

  /** When the condition holds, the workers alone can take every job that waits and bring it to its end,
      as far as it does not block a worker, and one of them is free afterwards. */
  lemma {:induction false} Empty(s: State) returns (ls: seq<Label>)
    requires Proper(s) && Serving(s)
    ensures ByWorkers(ls, {})
    ensures var t := Run(s, ls); Proper(t) && t.queue == [] && Busy(t, {}) == {} && PoolOf(t, {}).spare > 0
    decreases |s.queue|, Kept(s)
  {
    hide Proper, Reserved, Step, Spare, Kept, Wrapped, Gone, Waiting, SameView, Busy, ByWorkers, Run, Serving;
    NoneReserved(s);
    var tidy := Tidy(s, {});
    var t := Run(s, tidy);
    TidyServes(s, t);
    var l: Label;
    if d :| d in PoolOf(t, {}).kept && Drains(GiveUp(PoolOf(t, {}), d), Gone(t), Waiting(t)) {
      l := GiveUpStep(t, d, {});
      ServingWhen(Step(t, l));
    } else if t.queue == [] {
      ls := tidy;
      return;
    } else {
      l := TakeStep(t, {});
      ServingWhen(Step(t, l));
    }
    var rest := Empty(Step(t, l));
    ls := tidy + ([l] + rest);
    OneMoreWorker(t, l, rest);
    RunAppend(s, tidy, [l] + rest);
    JoinWorkers(tidy, [l] + rest, {});
  }

  lemma TidyServes(s: State, t: State)
    requires SameView(s, t, {}) && Serving(s)
    ensures Kept(t) == Kept(s) && Drains(PoolOf(t, {}), Gone(t), Waiting(t))
  {
  }

  lemma ServingWhen(s: State)
    ensures Drains(PoolOf(s, {}), Gone(s), Waiting(s)) ==> Serving(s)
  {
  }

  lemma OneMoreWorker(s: State, l: Label, rest: seq<Label>)
    requires ByWorker(l, {}) && ByWorkers(rest, {})
    ensures ByWorkers([l] + rest, {}) && Run(s, [l] + rest) == Run(Step(s, l), rest)
  {
    hide Step;
    RunOne(s, l);
    RunAppend(s, [l], rest);
  }

  /** What the workers leave as it is for a client. */
  ghost predicate Left(k: Client, k': Client) {
    && k'.parsed == k.parsed && k.events <= k'.events
    && (k'.status == Disconnect <==> k.status == Disconnect)
  }

  lemma WorkerLeaves(s: State, l: Label, c: ClientId)
    requires c in s.clients && ByWorker(l, {})
    ensures c in Step(s, l).clients && Left(s.clients[c], Step(s, l).clients[c])
  {
    HistoryGrows(s, l, c);
    hide CheckRegion, AdvanceRegion;
    if l.Check? && Holds(s, l.w) && Addressed(s, s.workers[l.w].value) {
      CheckParses(s, l.w, s.workers[l.w].value, c);
    } else if l.Advance? && Holds(s, l.w) && !s.heap[s.workers[l.w].value].kind.CustomJob? &&
              Addressed(s, s.workers[l.w].value) {
      AdvanceParses(s, l.w, s.workers[l.w].value, c);
    }
  }

  lemma {:induction false} WorkersLeave(s: State, ls: seq<Label>, c: ClientId)
    requires c in s.clients && ByWorkers(ls, {})
    ensures c in Run(s, ls).clients && Left(s.clients[c], Run(s, ls).clients[c])
  {
    hide Step;
    if ls != [] {
      WorkersLeave(s, ls[..|ls| - 1], c);
      assert ByWorker(ls[|ls| - 1], {});
      WorkerLeaves(Run(s, ls[..|ls| - 1]), ls[|ls| - 1], c);
    }
  }

  /** A client none of whose jobs waits or is in hand. */
  lemma NothingLeft(s: State, c: ClientId)
    requires Proper(s) && s.queue == [] && Busy(s, {}) == {} && c in s.clients && s.clients[c].status != Disconnect
    ensures s.clients[c].status == Idle || (s.clients[c].status == Connect && c in s.accepting)
  {
    ProperInv(s);
    assert ClientOk(s, c);
    forall j | j in s.heap && !s.heap[j].kind.DisconnectJob? && !s.heap[j].kind.CustomJob?
      ensures s.heap[j].kind.client != c
    {
      if s.heap[j].kind.client == c { NotInHand(s, c, j); }
    }
    hide Proper, Busy, JobOk;
    assert Outstanding(s, c) == {} && Connecting(s, c) == {};
  }

  lemma NotInHand(s: State, c: ClientId, j: JobId)
    requires Proper(s) && s.queue == [] && Busy(s, {}) == {} && c in s.clients && s.clients[c].status != Disconnect
    requires j in s.heap && !s.heap[j].kind.DisconnectJob? && !s.heap[j].kind.CustomJob?
    ensures s.heap[j].kind.client != c
  {
    if s.heap[j].kind.client == c {
      var w := SpareHolder(s, c, j);
      hide Proper;
      NobodyBusy(s, {});
    }
  }

  lemma SpareHolder(s: State, c: ClientId, j: JobId) returns (w: WorkerId)
    requires Proper(s) && s.queue == [] && c in s.clients && s.clients[c].status != Disconnect
    requires j in s.heap && (s.heap[j].kind.ConnectJob? || s.heap[j].kind.ProcessJob?) && s.heap[j].kind.client == c
    ensures w in Spare(s, {}) && w in s.workers && s.workers[w].Some?
  {
    ProperInv(s);
    hide JobOk, ClientOk, Ordered, AllAnnounced, Placed;
    w := HolderOf(s, j);
  }

  // ---------- a free worker serves a client ----------

  /** Nothing waits, and the worker has the one job of the client in hand. */
  ghost predicate AtWork(s: State, w: WorkerId, j: JobId, job: Job, c: ClientId, k: Client) {
    && s.queue == [] && w in s.workers && s.workers[w] == Some(j) && j in s.heap && s.heap[j] == job
    && !job.kind.CustomJob? && job.kind.client == c && c in s.clients && s.clients[c] == k && k.status != Disconnect
  }

  lemma AtTake(s: State, w: WorkerId, j: JobId, kind: Kind, c: ClientId)
    requires s.queue == [j] && w in s.workers && s.workers[w].None? && j in s.heap && s.heap[j] == Job(kind, Queued)
    requires !kind.CustomJob? && kind.client == c && c in s.clients && s.clients[c].status != Disconnect
    ensures AtWork(Step(s, Take(w)), w, j, Job(kind, Taken), c, s.clients[c])
  {
  }

  lemma AtCheck(s: State, w: WorkerId, j: JobId, kind: Kind, c: ClientId, k: Client)
    requires AtWork(s, w, j, Job(kind, Taken), c, k)
    ensures AtWork(Step(s, Check(w)), w, j, Job(kind, Checked), c, k)
  {
  }

  lemma AtGreet(s: State, w: WorkerId, j: JobId, c: ClientId, k: Client)
    requires AtWork(s, w, j, Job(ConnectJob(c), Checked), c, k)
    ensures AtWork(Step(s, Advance(w)), w, j, Job(ConnectJob(c), Sent), c, k.(events := k.events + [Connected]))
  {
  }

  lemma AtIdle(s: State, w: WorkerId, j: JobId, c: ClientId, k: Client)
    requires AtWork(s, w, j, Job(ConnectJob(c), Sent), c, k)
    ensures var t := Step(s, Advance(w));
      t.queue == [] && w in t.workers && t.workers[w].None? && c in t.clients && t.clients[c] == k.(status := Idle)
  {
  }

  lemma AtBegin(s: State, w: WorkerId, j: JobId, c: ClientId, p: Packet, k: Client)
    requires AtWork(s, w, j, Job(ProcessJob(c, p), Checked), c, k)
    ensures AtWork(Step(s, Advance(w)), w, j, Job(ProcessJob(c, p), Sent), c, k.(events := k.events + [Processing(p)]))
  {
  }

  lemma AtEnd(s: State, w: WorkerId, j: JobId, c: ClientId, p: Packet, k: Client)
    requires AtWork(s, w, j, Job(ProcessJob(c, p), Sent), c, k)
    ensures AtWork(Step(s, Advance(w)), w, j, Job(ProcessJob(c, p), Done), c, k.(events := k.events + [Processed(p)]))
  {
  }

  lemma AtDone(s: State, w: WorkerId, j: JobId, c: ClientId, p: Packet, k: Client)
    requires AtWork(s, w, j, Job(ProcessJob(c, p), Done), c, k)
    ensures var t := Step(s, Advance(w));
      c in t.clients && t.clients[c] == k.(status := Idle, jobs := Down(k.jobs))
  {
  }

  /** Steps of workers, and those that queue the connect job of client c or read packet p from it. */
  predicate OnlyFor(ls: seq<Label>, c: ClientId, p: Packet) {
    forall i :: 0 <= i < |ls| ==> IsFor(ls[i], c, p)
  }

  predicate IsFor(l: Label, c: ClientId, p: Packet) {
    ByWorker(l, {}) || (l.EnqueueConnect? && l.c == c) || (l.Read? && l.c == c && l.input == Parsed(p))
  }

  lemma ForJoin(a: seq<Label>, b: seq<Label>, c: ClientId, p: Packet)
    requires OnlyFor(a, c, p) && OnlyFor(b, c, p)
    ensures OnlyFor(a + b, c, p) && NoSpawn(a + b)
  {
    forall i | 0 <= i < |a + b|
      ensures IsFor((a + b)[i], c, p) && !(a + b)[i].Spawn?
    {
      assert (a + b)[i] == if i < |a| then a[i] else b[i - |a|];
    }
  }

  lemma WorkersFor(ls: seq<Label>, c: ClientId, p: Packet)
    requires ByWorkers(ls, {})
    ensures OnlyFor(ls, c, p)
  {
    assert forall i :: 0 <= i < |ls| ==> ByWorker(ls[i], {});
  }

  /** Nothing waits, the worker is free, and the client is idle and as k says. */
  ghost predicate AtRest(s: State, w: WorkerId, c: ClientId, k: Client) {
    s.queue == [] && w in s.workers && s.workers[w].None? && c in s.clients && s.clients[c] == k && k.status == Idle
  }

  lemma Enqueued(s: State, w: WorkerId, c: ClientId, j: JobId)
    requires s.queue == [] && w in s.workers && s.workers[w].None? && c in s.clients && s.clients[c].status != Disconnect
    requires c in s.accepting && j !in s.heap
    ensures var t := Step(s, EnqueueConnect(c, j)); JustQueued(t, w, j, ConnectJob(c)) && c in t.clients && t.clients[c] == s.clients[c]
  {
  }

  lemma Parsing(s: State, w: WorkerId, c: ClientId, j: JobId, p: Packet, k: Client)
    requires AtRest(s, w, c, k) && j !in s.heap
    ensures var t := Step(s, Read(c, Parsed(p), j));
      && JustQueued(t, w, j, ProcessJob(c, p))
      && c in t.clients && t.clients[c] == k.(status := Process, jobs := Up(k.jobs), parsed := k.parsed + [p])
  {
  }

  /** One job waits, and the worker is free. */
  ghost predicate JustQueued(s: State, w: WorkerId, j: JobId, kind: Kind) {
    s.queue == [j] && w in s.workers && s.workers[w].None? && j in s.heap && s.heap[j] == Job(kind, Queued)
  }

  lemma Began(s: State, w: WorkerId, j: JobId, kind: Kind, c: ClientId)
    requires JustQueued(s, w, j, kind) && c in s.clients && s.clients[c].status != Disconnect
    requires !kind.CustomJob? && kind.client == c
    ensures var t := Step(Step(s, Take(w)), Check(w)); AtWork(t, w, j, Job(kind, Checked), c, s.clients[c])
  {
    AtTake(s, w, j, kind, c);
    hide Step, AtWork;
    AtCheck(Step(s, Take(w)), w, j, kind, c, s.clients[c]);
  }

  lemma Greeted(s: State, w: WorkerId, j: JobId, c: ClientId, k: Client)
    requires AtWork(s, w, j, Job(ConnectJob(c), Checked), c, k)
    ensures AtRest(Step(Step(s, Advance(w)), Advance(w)), w, c, k.(status := Idle, events := k.events + [Connected]))
  {
    AtGreet(s, w, j, c, k);
    hide Step, AtWork;
    AtIdle(Step(s, Advance(w)), w, j, c, k.(events := k.events + [Connected]));
  }

  /** A listed client whose connect job is not queued yet becomes idle. */
  lemma Welcome(s: State, w: WorkerId, c: ClientId, p: Packet) returns (ls: seq<Label>)
    requires Proper(s) && s.queue == [] && w in s.workers && s.workers[w].None?
    requires c in s.clients && s.clients[c].status == Connect && c in s.accepting
    ensures OnlyFor(ls, c, p)
    ensures var t, k := Run(s, ls), s.clients[c];
      Proper(t) && AtRest(t, w, c, k.(status := Idle, events := k.events + [Connected]))
  {
    hide Proper, Step, AtWork, AtRest, JustQueued;
    var j := Bounded(s.heap.Keys);
    var a, b := [EnqueueConnect(c, j), Take(w), Check(w)], [Advance(w), Advance(w)];
    ls := a + b;
    RunThree(s, EnqueueConnect(c, j), Take(w), Check(w));
    Enqueued(s, w, c, j);
    var t := Run(s, a);
    Began(Step(s, EnqueueConnect(c, j)), w, j, ConnectJob(c), c);
    RunTwo(t, Advance(w), Advance(w));
    Greeted(t, w, j, c, s.clients[c]);
    RunAppend(s, a, b);
    RunProper(s, ls);
  }

  lemma Carried(s: State, w: WorkerId, j: JobId, c: ClientId, p: Packet, k: Client)
    requires AtWork(s, w, j, Job(ProcessJob(c, p), Checked), c, k)
    ensures var t := Step(Step(Step(s, Advance(w)), Advance(w)), Advance(w));
      c in t.clients && t.clients[c] == k.(status := Idle, jobs := Down(k.jobs), events := k.events + [Processing(p)] + [Processed(p)])
  {
    AtBegin(s, w, j, c, p, k);
    var k1 := k.(events := k.events + [Processing(p)]);
    hide Step, AtWork;
    AtEnd(Step(s, Advance(w)), w, j, c, p, k1);
    AtDone(Step(Step(s, Advance(w)), Advance(w)), w, j, c, p, k1.(events := k1.events + [Processed(p)]));
  }

  /** A packet of an idle client is parsed and processed, and the client is idle again. */
  lemma ServeIdle(s: State, w: WorkerId, c: ClientId, p: Packet, k: Client) returns (ls: seq<Label>)
    requires Proper(s) && AtRest(s, w, c, k)
    ensures OnlyFor(ls, c, p)
    ensures var t := Run(s, ls);
      && Proper(t) && c in t.clients && t.clients[c].status == Idle && t.clients[c].parsed == k.parsed + [p]
      && t.clients[c].events == k.events + [Processing(p)] + [Processed(p)]
  {
    hide Proper, Step, AtWork, AtRest, JustQueued;
    var j := Bounded(s.heap.Keys);
    var a, b := [Read(c, Parsed(p), j), Take(w), Check(w)], [Advance(w), Advance(w), Advance(w)];
    ls := a + b;
    RunThree(s, Read(c, Parsed(p), j), Take(w), Check(w));
    Parsing(s, w, c, j, p, k);
    var t, u := Run(s, a), Step(s, Read(c, Parsed(p), j));
    Began(u, w, j, ProcessJob(c, p), c);
    RunThree(t, Advance(w), Advance(w), Advance(w));
    Carried(t, w, j, c, p, u.clients[c]);
    RunAppend(s, a, b);
    RunProper(s, ls);
  }

  // ---------- the exact condition for a service ----------

  /** In the run packet p is parsed next, it is begun and ended, all packets parsed are ended, and the
      client is idle again. */
  ghost predicate Processes(s: State, ls: seq<Label>, c: ClientId, p: Packet)
    requires c in s.clients
  {
    c in Run(s, ls).clients &&
    var k, k' := s.clients[c], Run(s, ls).clients[c];
    && k'.status == Idle && k'.parsed == k.parsed + [p] && Begun(k'.events) == Ended(k'.events) == k'.parsed
    && exists es :: k'.events == es + [Processing(p)] + [Processed(p)] && k.events <= es
  }

  lemma IdleEnded(s: State, c: ClientId)
    requires Proper(s) && c in s.clients && s.clients[c].status == Idle
    ensures var k := s.clients[c]; Begun(k.events) == Ended(k.events) == k.parsed
  {
    assert ClientOk(s, c);
  }

  lemma ProcessesThen(s: State, t: State, before: seq<Label>, ls: seq<Label>, c: ClientId, p: Packet, k: Client)
    requires c in s.clients && t == Run(s, before) && k.parsed == s.clients[c].parsed && s.clients[c].events <= k.events
    requires var u := Run(t, ls);
      && Proper(u) && c in u.clients && u.clients[c].status == Idle && u.clients[c].parsed == k.parsed + [p]
      && u.clients[c].events == k.events + [Processing(p)] + [Processed(p)]
    ensures Processes(s, before + ls, c, p)
  {
    hide Proper, Step, Begun, Ended;
    RunAppend(s, before, ls);
    IdleEnded(Run(t, ls), c);
  }

  /** Every packet of a client that has not broken off can be processed while the condition holds. */
  lemma Serve(s: State, c: ClientId, p: Packet) returns (ls: seq<Label>)
    requires Proper(s) && Serving(s) && c in s.clients && s.clients[c].status != Disconnect
    ensures OnlyFor(ls, c, p) && NoSpawn(ls) && Processes(s, ls, c, p)
  {
    hide Proper, Step, Serving, Busy, ByWorkers, OnlyFor, NoSpawn, AtRest, Processes, Spare, PoolOf, Run;
    var empty := Empty(s);
    WorkersFor(empty, c, p);
    WorkersLeave(s, empty, c);
    var t := Run(s, empty);
    NothingLeft(t, c);
    var w := SomeFree(t);
    var before, k := empty, t.clients[c];
    if t.clients[c].status == Connect {
      var welcome := Welcome(t, w, c, p);
      before, k := empty + welcome, k.(status := Idle, events := k.events + [Connected]);
      ForJoin(empty, welcome, c, p);
      RunAppend(s, empty, welcome);
    } else {
      RestingNow(t, w, c);
    }
    var rest := ServeIdle(Run(s, before), w, c, p, k);
    ProcessesThen(s, Run(s, before), before, rest, c, p, k);
    ls := before + rest;
    ForJoin(before, rest, c, p);
  }

  lemma RestingNow(s: State, w: WorkerId, c: ClientId)
    requires s.queue == [] && w in s.workers && s.workers[w].None? && c in s.clients && s.clients[c].status == Idle
    ensures AtRest(s, w, c, s.clients[c])
  {
  }

  lemma SomeFree(s: State) returns (w: WorkerId)
    requires Busy(s, {}) == {} && PoolOf(s, {}).spare > 0
    ensures w in s.workers && s.workers[w].None?
  {
    NobodyBusy(s, {});
    hide Spare;
    assert Spare(s, {}) != {};
    w :| w in Spare(s, {});
  }

  /** A client that has broken off begins no packet parsed later, as none is. */
  lemma {:induction false} GoneParses(s: State, ls: seq<Label>, c: ClientId)
    requires c in s.clients && s.clients[c].status == Disconnect
    ensures var t := Run(s, ls); c in t.clients && t.clients[c].status == Disconnect && t.clients[c].parsed == s.clients[c].parsed
  {
    hide Step;
    if ls != [] {
      GoneParses(s, ls[..|ls| - 1], c);
      HistoryGrows(Run(s, ls[..|ls| - 1]), ls[|ls| - 1], c);
    }
  }

  lemma GoneBegins(s: State, ls: seq<Label>, c: ClientId)
    requires Proper(s) && c in s.clients && s.clients[c].status == Disconnect
    ensures !Begins(s, ls, c)
  {
    hide Step, Proper, Begun, Ended;
    GoneParses(s, ls, c);
    RunProper(s, ls);
    ProperInv(Run(s, ls));
    EventOrder(Run(s, ls), c);
  }

  lemma ProcessesBegins(s: State, ls: seq<Label>, c: ClientId, p: Packet)
    requires c in s.clients && Processes(s, ls, c, p)
    ensures Begins(s, ls, c)
  {
  }

  /** From every reachable state, for every client and every packet p: some continuation without a new
      worker parses p next and processes it exactly when the client has not broken off and all jobs that
      wait can be taken, and one more. Otherwise no packet parsed later is even begun; and when it can be
      done, workers can do it with nothing but the connect job and the packet of this client added. */
  lemma ServedIff(ls: seq<Label>, c: ClientId, p: Packet)
    requires c in Run(Start, ls).clients
    ensures var s := Run(Start, ls); var can := s.clients[c].status != Disconnect && Serving(s);
      && ((exists more :: NoSpawn(more) && Processes(s, more, c, p)) <==> can)
      && ((exists more :: NoSpawn(more) && Begins(s, more, c)) <==> can)
      && (can ==> exists more :: OnlyFor(more, c, p) && Processes(s, more, c, p))
  {
    hide Step, Run, Proper, Serving, NoSpawn, OnlyFor, Processes, Begins;
    var s := Run(Start, ls);
    ReachedProper(ls);
    if s.clients[c].status != Disconnect && Serving(s) {
      var more := Serve(s, c, p);
      ProcessesBegins(s, more, c, p);
    }
    forall more | NoSpawn(more) && Begins(s, more, c)
      ensures s.clients[c].status != Disconnect && Serving(s)
    {
      if s.clients[c].status == Disconnect { GoneBegins(s, more, c); }
      if !Serving(s) { NeverBegins(s, more, c); }
    }
    forall more | NoSpawn(more) && Processes(s, more, c, p)
      ensures s.clients[c].status != Disconnect && Serving(s)
    {
      ProcessesBegins(s, more, c, p);
    }
  }

  /** While there are fewer blocking jobs than workers, every client that has not broken off can have
      every packet processed. */
  lemma EnoughToServe(ls: seq<Label>, c: ClientId, p: Packet)
    requires c in Run(Start, ls).clients && Run(Start, ls).clients[c].status != Disconnect
    requires |LostJobs(Run(Start, ls))| < |Run(Start, ls).workers.Keys|
    ensures exists more :: OnlyFor(more, c, p) && Processes(Run(Start, ls), more, c, p)
  {
    var s := Run(Start, ls);
    ReachedProper(ls);
    ProperPlaced(s);
    hide Proper, Placed, LostJobs, Gone, Wrapped, Spare, Kept, Waiting, Drains, Step, Run, OnlyFor, Processes;
    SpareCount(s);
    EnoughToDrain(PoolOf(s, {}), Gone(s), Waiting(s));
    ServedIff(ls, c, p);
  }
}
