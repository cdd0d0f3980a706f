/** When a client can be reported as disconnected without a new worker: the exact condition, with the
    workers' steps that bring it about, and simpler conditions. */
module PoolReports {

  import opened ClientProtocol
  import opened ClientOutcomes
  import opened PoolModel

  // ---------- the workers carry it out ----------

  predicate ByWorker(l: Label, r: set<WorkerId>) {
    (l.Take? || l.Check? || l.Advance?) && l.w !in r
  }

  /** Only workers act, and none of those set aside. */
  predicate ByWorkers(ls: seq<Label>, r: set<WorkerId>) {
    forall i :: 0 <= i < |ls| ==> ByWorker(ls[i], r)
  }

  /** The worker's job has nothing left to wait for. */
  predicate Ready(s: State, w: WorkerId) {
    Holds(s, w) &&
    var job := s.heap[s.workers[w].value];
    job.kind.DisconnectJob? && job.stage != Sent ==> Outstanding(s, job.kind.client) == {}
  }

  function Next(s: State, w: WorkerId): Label
    requires Holds(s, w)
  {
    if s.heap[s.workers[w].value].stage == Taken then Check(w) else Advance(w)
  }

  /** The job of the worker got a stage further, or it is done. */
  ghost predicate WentOn(s: State, t: State, w: WorkerId)
    requires Holds(s, w)
  {
    var j := s.workers[w].value;
    && t.queue == s.queue
    && if j in t.heap then
         && t.workers == s.workers && Rank(t.heap[j].stage) < Rank(s.heap[j].stage)
         && t.heap == s.heap[j := s.heap[j].(stage := t.heap[j].stage)]
       else
         && t.workers == s.workers[w := None] && t.heap == s.heap - {j}
  }

  lemma NextGoes(s: State, w: WorkerId)
    requires Proper(s) && Holds(s, w) && !Lost(s, w) && !Keeps(s, w) && Ready(s, w)
    ensures WentOn(s, Step(s, Next(s, w)), w)
    ensures var k := s.heap[s.workers[w].value].kind; var t := Step(s, Next(s, w));
      s.workers[w].value !in t.heap && k.DisconnectJob? ==> k.client in t.clients && Reported(t.clients[k.client].events)
  {
    var j := s.workers[w].value;
    assert Fits(s.heap[j]) && s.heap[j].stage != Queued && JobOk(s, j);
    if s.heap[j].kind.CustomJob? {
      hide Inv, Attended, Ordered, AllAnnounced, AllFit;
    } else {
      var c := s.heap[j].kind.client;
      JobsAreCounted(s, c);
      hide Inv, Attended, Ordered, AllAnnounced, AllFit, JobOk, ClientOk, Outstanding;
      NextGoesClient(s, w, j, c);
    }
  }

  lemma JobsAreCounted(s: State, c: ClientId)
    requires Inv(s) && c in s.clients
    ensures !s.clients[c].dropped && Outstanding(s, c) == {} ==> s.clients[c].jobs == 0
  {
    assert ClientOk(s, c);
  }

  lemma NextGoesClient(s: State, w: WorkerId, j: JobId, c: ClientId)
    requires Holds(s, w) && s.workers[w] == Some(j) && !Lost(s, w) && !Keeps(s, w) && Fits(s.heap[j]) && s.heap[j].stage != Queued
    requires !s.heap[j].kind.CustomJob? && s.heap[j].kind.client == c && c in s.clients
    requires s.heap[j].kind.DisconnectJob? && !s.clients[c].dropped && s.heap[j].stage != Sent ==> s.clients[c].jobs == 0
    ensures var t := Step(s, Next(s, w));
      && WentOn(s, t, w)
      && (j !in t.heap && s.heap[j].kind.DisconnectJob? ==> c in t.clients && Reported(t.clients[c].events))
  {
    if s.heap[j] == Job(DisconnectJob(c), Sent) { SaysGoodbye(s, w, j, c); }
    hide Reported;
  }

  lemma NextView(s: State, w: WorkerId, r: set<WorkerId>)
    requires Inv(s) && Holds(s, w) && !Keeps(s, w)
    ensures SameView(s, Step(s, Next(s, w)), r)
  {
    hide Step, Inv, SameView;
    if s.heap[s.workers[w].value].stage == Taken { CheckView(s, w, r); } else { AdvanceView(s, w, r); }
  }

  lemma SpareIs(s: State, w: WorkerId, r: set<WorkerId>)
    ensures w in Spare(s, r) <==> w in s.workers && w !in r && !Lost(s, w) && !Keeps(s, w)
  {
  }

  lemma StillReady(s: State, t: State, w: WorkerId)
    requires Ready(s, w) && WentOn(s, t, w) && s.workers[w].value in t.heap && Fits(t.heap[s.workers[w].value])
    ensures Ready(t, w)
  {
    var k := s.heap[s.workers[w].value].kind;
    if k.DisconnectJob? { assert Outstanding(t, k.client) == Outstanding(s, k.client); }
  }

  lemma JobFit(s: State, j: JobId)
    requires Proper(s) && j in s.heap
    ensures Fits(s.heap[j])
  {
  }

  /** A ready worker brings its job to its end. */
  lemma {:induction false} FreeOne(s: State, w: WorkerId, r: set<WorkerId>) returns (ls: seq<Label>)
    requires Proper(s) && w in Spare(s, r) && Ready(s, w)
    ensures ByWorkers(ls, r)
    ensures var t, j := Run(s, ls), s.workers[w].value;
      && Proper(t) && SameView(s, t, r) && t.queue == s.queue
      && t.workers == s.workers[w := None] && t.heap == s.heap - {j}
      && (s.heap[j].kind.DisconnectJob? ==>
            s.heap[j].kind.client in t.clients && Reported(t.clients[s.heap[j].kind.client].events))
    decreases Rank(s.heap[s.workers[w].value].stage)
  {
    hide Proper, Step, Spare, Ready, Reported, SameView, Lost, Keeps;
    SpareIs(s, w, r);
    assert Holds(s, w) by { ReadyHolds(s, w); }
    var l, j := Next(s, w), s.workers[w].value;
    var t := Step(s, l);
    NextGoes(s, w);
    ProperInv(s);
    NextView(s, w, r);
    RunOne(s, l);
    StepProper(s, l);
    if j in t.heap {
      JobFit(t, j);
      StillReady(s, t, w);
      SpareSame(s, t, r);
      var rest := FreeOne(t, w, r);
      ls := [l] + rest;
      RunAppend(s, [l], rest);
      SameTwice(s, t, Run(t, rest), r);
      assert t.heap - {j} == s.heap - {j};
    } else {
      ls := [l];
    }
  }

  lemma ReadyHolds(s: State, w: WorkerId)
    requires Ready(s, w)
    ensures Holds(s, w)
  {
  }

  lemma ProperInv(s: State)
    requires Proper(s)
    ensures Inv(s) && Attended(s)
  {
  }

  lemma SpareSame(s: State, t: State, r: set<WorkerId>)
    requires SameView(s, t, r)
    ensures Spare(t, r) == Spare(s, r)
  {
  }

  lemma SameTwice(s: State, t: State, u: State, r: set<WorkerId>)
    requires SameView(s, t, r) && SameView(t, u, r)
    ensures SameView(s, u, r)
  {
  }

  /** The worker is free; others were freed or have what they had. */
  ghost predicate Cleared(s: State, t: State, w: WorkerId) {
    && w in s.workers && t.workers.Keys == s.workers.Keys && t.workers[w].None? && t.queue == s.queue
    && forall v :: v in s.workers ==> t.workers[v] == s.workers[v] || t.workers[v].None?
  }

  /** The disconnect job that the worker had was reported. */
  ghost predicate SaidSo(s: State, t: State, w: WorkerId) {
    Holds(s, w) &&
    var k := s.heap[s.workers[w].value].kind;
    k.DisconnectJob? ==> k.client in t.clients && Reported(t.clients[k.client].events)
  }

  /** Every spare worker can be made free. When it waits for a process job, that is finished first. */
  lemma Clear(s: State, w: WorkerId, r: set<WorkerId>) returns (ls: seq<Label>)
    requires Proper(s) && w in Spare(s, r) && s.workers[w].Some? && Reserved(s, r)
    ensures ByWorkers(ls, r)
    ensures var t := Run(s, ls); Proper(t) && SameView(s, t, r) && Cleared(s, t, w) && SaidSo(s, t, w)
  {
    HoldsInHand(s, w);
    hide *;
    if Ready(s, w) {
      ls := FreeOne(s, w, r);
      ClearedOne(s, Run(s, ls), w);
    } else {
      NotReady(s, w);
      var v := Blocker(s, w, r);
      var first := FreeOne(s, v, r);
      var t := Run(s, first);
      ReadyNow(s, t, w, v);
      SpareSame(s, t, r);
      var rest := FreeOne(t, w, r);
      ls := first + rest;
      RunAppend(s, first, rest);
      SameTwice(s, t, Run(t, rest), r);
      ClearedTwo(s, t, Run(t, rest), w, v);
      JoinWorkers(first, rest, r);
    }
  }

  lemma JoinWorkers(a: seq<Label>, b: seq<Label>, r: set<WorkerId>)
    requires ByWorkers(a, r) && ByWorkers(b, r)
    ensures ByWorkers(a + b, r)
  {
  }

  lemma ClearedOne(s: State, t: State, w: WorkerId)
    requires Holds(s, w) && t.workers == s.workers[w := None] && t.queue == s.queue
    ensures Cleared(s, t, w)
    ensures var k := s.heap[s.workers[w].value].kind;
      (k.DisconnectJob? ==> k.client in t.clients && Reported(t.clients[k.client].events)) ==> SaidSo(s, t, w)
  {
  }

  lemma NotReady(s: State, w: WorkerId)
    requires Holds(s, w) && !Ready(s, w)
    ensures s.heap[s.workers[w].value].kind.DisconnectJob?
  {
  }

  lemma ClearedTwo(s: State, t: State, u: State, w: WorkerId, v: WorkerId)
    requires Holds(s, w) && Holds(s, v) && v != w && s.workers[v] != s.workers[w]
    requires t.workers == s.workers[v := None] && t.heap == s.heap - {s.workers[v].value} && t.queue == s.queue
    requires u.workers == t.workers[w := None] && u.queue == t.queue
    requires var k := t.heap[s.workers[w].value].kind;
      k.DisconnectJob? ==> k.client in u.clients && Reported(u.clients[k.client].events)
    ensures Cleared(s, u, w) && SaidSo(s, u, w)
  {
  }

  lemma HoldsInHand(s: State, w: WorkerId)
    requires Proper(s) && w in s.workers && s.workers[w].Some?
    ensures Holds(s, w) && s.heap[s.workers[w].value].stage != Queued
  {
  }

  /** The worker with the process job that w waits for. */
  lemma Blocker(s: State, w: WorkerId, r: set<WorkerId>) returns (v: WorkerId)
    requires Proper(s) && Holds(s, w) && !Ready(s, w) && Reserved(s, r)
    ensures v in Spare(s, r) && Ready(s, v) && Holds(s, v) && v != w && s.workers[v] != s.workers[w]
    ensures Outstanding(s, s.heap[s.workers[w].value].kind.client) == {s.workers[v].value}
  {
    var j := s.workers[w].value;
    var c := s.heap[j].kind.client;
    HoldsInHand(s, w);
    var i :| i in Outstanding(s, c);
    ProcessInHand(s, j, i);
    assert JobOk(s, i);
    OnlyOne(s, i, c);
    v := HolderOf(s, i);
  }

  lemma ReadyNow(s: State, t: State, w: WorkerId, v: WorkerId)
    requires Holds(s, w) && s.heap[s.workers[w].value].kind.DisconnectJob? && Holds(s, v) && s.workers[v] != s.workers[w] && v != w
    requires Outstanding(s, s.heap[s.workers[w].value].kind.client) == {s.workers[v].value}
    requires t.workers == s.workers[v := None] && t.heap == s.heap - {s.workers[v].value}
    ensures Ready(t, w)
  {
    var c := s.heap[s.workers[w].value].kind.client;
    assert Outstanding(t, c) == Outstanding(s, c) - {s.workers[v].value};
  }

  function Busy(s: State, r: set<WorkerId>): set<WorkerId> {
    set w | w in Spare(s, r) && w in s.workers && s.workers[w].Some?
  }

  /** All spare workers can be made free. */
  lemma {:induction false} Tidy(s: State, r: set<WorkerId>) returns (ls: seq<Label>)
    requires Proper(s) && Reserved(s, r)
    ensures ByWorkers(ls, r)
    ensures var t := Run(s, ls);
      Proper(t) && SameView(s, t, r) && t.queue == s.queue && Reserved(t, r) && Busy(t, r) == {}
    decreases Busy(s, r)
  {
    hide Proper, Step, Spare, SameView, Reserved;
    if Busy(s, r) == {} {
      ls := [];
      NoChange(s, r);
    } else {
      var w :| w in Busy(s, r);
      var first := Clear(s, w, r);
      var t := Run(s, first);
      FewerBusy(s, t, w, r);
      WorkersKeepReserved(s, first, r);
      var rest := Tidy(t, r);
      ls := first + rest;
      RunAppend(s, first, rest);
      SameTwice(s, t, Run(t, rest), r);
    }
  }

  lemma FewerBusy(s: State, t: State, w: WorkerId, r: set<WorkerId>)
    requires SameView(s, t, r) && Cleared(s, t, w) && w in Busy(s, r)
    ensures Busy(t, r) < Busy(s, r) && t.queue == s.queue
  {
    hide Spare;
    assert w !in Busy(t, r);
  }

  /** What other workers do leaves those set aside with their jobs. */
  lemma ReservedStep(s: State, l: Label, r: set<WorkerId>)
    requires Placed(s) && Reserved(s, r) && ByWorker(l, r)
    ensures Reserved(Step(s, l), r)
  {
    var t := Step(s, l);
    forall v | v in r
      ensures Holds(t, v) && t.heap[t.workers[v].value].kind.ConnectJob? && t.heap[t.workers[v].value].stage == Checked
    {
      assert Holds(s, v) && v != l.w;
      KeepsItsJob(s, l, v);
    }
  }

  lemma KeepsItsJob(s: State, l: Label, v: WorkerId)
    requires Placed(s) && (l.Take? || l.Check? || l.Advance?) && Holds(s, v) && v != l.w
    ensures var t := Step(s, l); Holds(t, v) && t.workers[v] == s.workers[v] && t.heap[t.workers[v].value] == s.heap[s.workers[v].value]
  {
    var j := s.workers[v].value;
    assert s.heap[j].stage != Queued;
    if l.Take? {
      assert s.queue != [] ==> s.queue[0] != j;
    } else {
      assert l.w in s.workers && s.workers[l.w].Some? ==> s.workers[l.w] != Some(j);
    }
  }

  lemma {:induction false} WorkersKeepReserved(s: State, ls: seq<Label>, r: set<WorkerId>)
    requires Proper(s) && Reserved(s, r) && ByWorkers(ls, r)
    ensures Reserved(Run(s, ls), r) && Proper(Run(s, ls))
  {
    hide Proper, Reserved, Step;
    if ls != [] {
      WorkersKeepReserved(s, ls[..|ls| - 1], r);
      var t := Run(s, ls[..|ls| - 1]);
      ProperPlaced(t);
      ReservedStep(t, ls[|ls| - 1], r);
      StepProper(t, ls[|ls| - 1]);
    }
  }

  /** A client whose disconnect job a worker has, and does not have to wait for ever, is reported. */
  lemma ReportHeld(s: State, c: ClientId, j: JobId, r: set<WorkerId>) returns (ls: seq<Label>)
    requires Proper(s) && Reserved(s, r) && c in s.clients
    requires j in s.heap && s.heap[j].kind == DisconnectJob(c) && s.heap[j].stage != Queued
    requires s.heap[j].stage == Sent || !s.clients[c].dropped
    ensures ByWorkers(ls, r) && Reports(s, ls, c)
  {
    ProperInv(s);
    var w := HolderOf(s, j);
    HeldIsSpare(s, c, j, w, r);
    hide *;
    ls := Clear(s, w, r);
    SaidReports(s, ls, w, c);
  }

  lemma HeldIsSpare(s: State, c: ClientId, j: JobId, w: WorkerId, r: set<WorkerId>)
    requires Holds(s, w) && s.workers[w] == Some(j) && s.heap[j].kind == DisconnectJob(c) && c in s.clients
    requires (s.heap[j].stage == Sent || !s.clients[c].dropped) && Reserved(s, r)
    ensures w in Spare(s, r) && s.workers[w].Some? && s.heap[s.workers[w].value].kind == DisconnectJob(c)
  {
  }

  lemma SaidReports(s: State, ls: seq<Label>, w: WorkerId, c: ClientId)
    requires Holds(s, w) && s.heap[s.workers[w].value].kind == DisconnectJob(c) && SaidSo(s, Run(s, ls), w)
    ensures Reports(s, ls, c)
  {
  }

  lemma ReportsLater(s: State, a: seq<Label>, b: seq<Label>, c: ClientId, r: set<WorkerId>)
    requires ByWorkers(a, r) && ByWorkers(b, r) && Reports(Run(s, a), b, c)
    ensures ByWorkers(a + b, r) && Reports(s, a + b, c)
  {
    RunAppend(s, a, b);
  }

  /** The worker with the kept connect job of client d. */
  lemma KeeperOf(s: State, d: ClientId, r: set<WorkerId>) returns (w: WorkerId)
    requires Proper(s) && Reserved(s, r) && d in Kept(s)
    ensures Keeps(s, w) && KeptClient(s, w) == d && w !in r
  {
    var j :| j in s.heap && s.heap[j] == Job(ConnectJob(d), Taken);
    ProperInv(s);
    w := HolderOf(s, j);
  }

  lemma NobodyBusy(s: State, r: set<WorkerId>)
    requires Busy(s, r) == {}
    ensures forall w :: w in Spare(s, r) ==> w in s.workers && s.workers[w].None? && w !in r
  {
    forall w | w in Spare(s, r)
      ensures w in s.workers && s.workers[w].None? && w !in r
    {
      assert w in Busy(s, r) <==> s.workers[w].Some?;
    }
  }

  /** All spare workers are free, and the connect job of d is given up. */
  lemma GiveUpStep(s: State, d: ClientId, r: set<WorkerId>) returns (l: Label)
    requires Proper(s) && Reserved(s, r) && Busy(s, r) == {} && d in Kept(s)
    ensures ByWorker(l, r)
    ensures var u := Step(s, l);
      && Proper(u) && Reserved(u, r) && Wrapped(u) == Wrapped(s) + {d}
      && PoolOf(u, r) == GiveUp(PoolOf(s, r), d) && Gone(u) == Gone(s) && Waiting(u) == Waiting(s)
      && u.queue == s.queue && Kept(u) < Kept(s)
  {
    var w := KeeperOf(s, d, r);
    l := Check(w);
    ProperPlaced(s);
    ProperInv(s);
    DropIs(s, w);
    NobodyBusy(s, r);
    hide Proper, Reserved, Step, Spare, Kept, Wrapped, Gone, Waiting, Inv;
    StepProper(s, l);
    ReservedStep(s, l, r);
    DropSets(s, w);
    DropPool(s, w, r);
  }

  /** All spare workers are free, and one of them takes the oldest job. */
  lemma TakeStep(s: State, r: set<WorkerId>) returns (l: Label)
    requires Proper(s) && Reserved(s, r) && Busy(s, r) == {} && PoolOf(s, r).spare > 0 && Waiting(s) != []
    ensures ByWorker(l, r)
    ensures var u := Step(s, l);
      && Proper(u) && Reserved(u, r) && Wrapped(u) == Wrapped(s) && |u.queue| < |s.queue|
      && PoolOf(u, r) == Taking(PoolOf(s, r), Waiting(s)[0], Gone(s)) && Gone(u) == Gone(s) && Waiting(u) == Waiting(s)[1..]
      && s.queue != [] && TakenJob(s, u, Waiting(s)[0])
  {
    ProperPlaced(s);
    ProperInv(s);
    NobodyBusy(s, r);
    assert Spare(s, r) != {};
    var w :| w in Spare(s, r);
    l := Take(w);
    assert s.queue != [];
    TakeIs(s, w);
    hide Proper, Reserved, Step, Spare, Kept, Wrapped, Gone, Inv;
    KindsAt(s.heap, s.queue, 0);
    StepProper(s, l);
    ReservedStep(s, l, r);
    TakeSets(s, w);
    TakePool(s, w, r);
  }

  /** The oldest job has just been taken. */
  ghost predicate TakenJob(s: State, u: State, kind: Kind)
    requires s.queue != []
  {
    s.queue[0] in u.heap && u.heap[s.queue[0]] == Job(kind, Taken)
  }

  /** When the condition holds, the workers can do it alone, and without those set aside. */
  lemma {:induction false} CarryOut(s: State, c: ClientId, r: set<WorkerId>) returns (ls: seq<Label>)
    requires Proper(s) && Reserved(s, r) && c in Gone(s) && c !in Wrapped(s)
    requires Serves(PoolOf(s, r), Gone(s), Waiting(s), c)
    ensures ByWorkers(ls, r) && Reports(s, ls, c)
    decreases |s.queue|, Kept(s)
  {
    hide Proper, Reserved, Step, Spare, Kept, Wrapped, Gone, Waiting, SameView, Reports, Busy, ByWorkers, Run;
    var tidy := Tidy(s, r);
    var t := Run(s, tidy);
    TidySame(s, t, c, r);
    var l: Label;
    if d :| d in PoolOf(t, r).kept && d != c && Serves(GiveUp(PoolOf(t, r), d), Gone(t), Waiting(t), c) {
      l := GiveUpStep(t, d, r);
      var rest := CarryOut(Step(t, l), c, r);
      ls := tidy + ([l] + rest);
      OneThen(t, l, rest, c, r);
      ReportsLater(s, tidy, [l] + rest, c, r);
    } else {
      l := TakeStep(t, r);
      var u := Step(t, l);
      var rest;
      if Waiting(t)[0] == DisconnectJob(c) {
        GoneIs(u, c);
        rest := ReportHeld(u, c, t.queue[0], r);
      } else {
        rest := CarryOut(u, c, r);
      }
      ls := tidy + ([l] + rest);
      OneThen(t, l, rest, c, r);
      ReportsLater(s, tidy, [l] + rest, c, r);
    }
  }

  lemma TidySame(s: State, t: State, c: ClientId, r: set<WorkerId>)
    requires SameView(s, t, r) && c in Gone(s) && c !in Wrapped(s) && Serves(PoolOf(s, r), Gone(s), Waiting(s), c)
    ensures c in Gone(t) && c !in Wrapped(t) && Kept(t) == Kept(s) && Serves(PoolOf(t, r), Gone(t), Waiting(t), c)
  {
  }

  lemma OneThen(s: State, l: Label, rest: seq<Label>, c: ClientId, r: set<WorkerId>)
    requires ByWorker(l, r) && ByWorkers(rest, r) && Reports(Step(s, l), rest, c)
    ensures ByWorkers([l] + rest, r) && Reports(s, [l] + rest, c)
  {
    hide Step;
    RunOne(s, l);
    RunAppend(s, [l], rest);
  }

  // ---------- the exact condition for a report ----------

  /** No worker is started. */
  predicate NoSpawn(ls: seq<Label>) {
    forall i :: 0 <= i < |ls| ==> !ls[i].Spawn?
  }

  lemma GoneStays(s: State, l: Label, c: ClientId)
    requires c in Gone(s)
    ensures c in Gone(Step(s, l))
  {
    hide Step;
    HistoryGrows(s, l, c);
  }

  lemma {:induction false} GoneRun(s: State, ls: seq<Label>, c: ClientId)
    requires c in Gone(s)
    ensures c in Gone(Run(s, ls))
  {
    hide Gone, Step;
    if ls != [] {
      GoneRun(s, ls[..|ls| - 1], c);
      GoneStays(Run(s, ls[..|ls| - 1]), ls[|ls| - 1], c);
    }
  }

  lemma {:induction false} ReportableBefore(s: State, ls: seq<Label>, c: ClientId)
    requires Proper(s) && c in Gone(s) && NoSpawn(ls) && c in Run(s, ls).clients && Reportable(Run(s, ls), c, {})
    ensures c in s.clients && Reportable(s, c, {})
  {
    hide Proper, Reportable, Step, Gone;
    GoneIs(s, c);
    if ls != [] {
      var before := ls[..|ls| - 1];
      RunProper(s, before);
      GoneRun(s, before, c);
      GoneIs(Run(s, before), c);
      ReportableBack(Run(s, before), ls[|ls| - 1], c, {});
      ReportableBefore(s, before, c);
    }
  }

  /** The workers can report the client when the condition holds. */
  lemma Bring(s: State, c: ClientId, r: set<WorkerId>) returns (ls: seq<Label>)
    requires Proper(s) && Reserved(s, r) && c in Gone(s) && c in s.clients && Reportable(s, c, r)
    ensures ByWorkers(ls, r) && Reports(s, ls, c)
  {
    hide Proper, Reserved, Gone, Step, Serves, PoolOf, Waiting, Reported;
    GoneIs(s, c);
    if Reported(s.clients[c].events) {
      ls := [];
    } else if PastTheWait(s, c) {
      var j :| j in s.heap && s.heap[j] == Job(DisconnectJob(c), Sent);
      ls := ReportHeld(s, c, j, r);
    } else if TakenDisconnect(s, c) {
      var j :| j in s.heap && s.heap[j].kind == DisconnectJob(c) && s.heap[j].stage in {Taken, Checked};
      ls := ReportHeld(s, c, j, r);
    } else {
      ls := CarryOut(s, c, r);
    }
  }

  lemma WorkersSpawnNone(ls: seq<Label>, r: set<WorkerId>)
    requires ByWorkers(ls, r)
    ensures NoSpawn(ls)
  {
    assert forall i :: 0 <= i < |ls| ==> ByWorker(ls[i], r);
  }

  /** From every reachable state with the client at Disconnect: some continuation without a new worker
      dispatches `Client.disconnect` exactly when the condition holds, and then the workers can do it
      without any help. */
  lemma ReportableIff(ls: seq<Label>, c: ClientId)
    requires c in Run(Start, ls).clients && Run(Start, ls).clients[c].status == Disconnect
    ensures var s := Run(Start, ls);
      && ((exists more :: NoSpawn(more) && Reports(s, more, c)) <==> Reportable(s, c, {}))
      && (Reportable(s, c, {}) ==> exists more :: ByWorkers(more, {}) && Reports(s, more, c))
  {
    hide Proper, Step, Gone, Reportable, NoSpawn, ByWorkers;
    var s := Run(Start, ls);
    ReachedProper(ls);
    GoneIs(s, c);
    if Reportable(s, c, {}) {
      var more := Bring(s, c, {});
      WorkersSpawnNone(more, {});
    }
    forall more | NoSpawn(more) && Reports(s, more, c)
      ensures Reportable(s, c, {})
    {
      ReportedReportable(Run(s, more), c);
      ReportableBefore(s, more, c);
    }
  }

  lemma ReportedReportable(s: State, c: ClientId)
    requires c in s.clients && Reported(s.clients[c].events)
    ensures Reportable(s, c, {})
  {
  }

  // ---------- simpler conditions ----------

  /** The job blocks a worker when it is taken: for ever, or until it is given up. */
  predicate Costs(k: Kind, lost: set<ClientId>, gone: set<ClientId>) {
    (k.DisconnectJob? && k.client in lost) || (k.ConnectJob? && k.client in gone)
  }

  function Cost(q: seq<Kind>, lost: set<ClientId>, gone: set<ClientId>): nat {
    if q == [] then 0 else (if Costs(q[0], lost, gone) then 1 else 0) + Cost(q[1..], lost, gone)
  }

  /** With more spare workers than such jobs, every connect job can be kept. */
  lemma {:induction false} EnoughSpare(p: Pool, gone: set<ClientId>, q: seq<Kind>, c: ClientId)
    requires DisconnectJob(c) in q && p.spare > Cost(q, p.lost, gone)
    ensures Serves(p, gone, q, c)
    decreases |q|
  {
    if q[0] != DisconnectJob(c) {
      EnoughSpare(Taking(p, q[0], gone), gone, q[1..], c);
    }
  }

  /** What waits ahead of the disconnect job of c. */
  function Ahead(q: seq<Kind>, c: ClientId): seq<Kind> {
    if q == [] || q[0] == DisconnectJob(c) then [] else [q[0]] + Ahead(q[1..], c)
  }

  /** While no unchecked connect job of a disconnecting client is in hand or waits, nothing can be given
      up, and the condition is a count. */
  lemma {:induction false} ServesIffCount(p: Pool, gone: set<ClientId>, q: seq<Kind>, c: ClientId)
    requires p.kept == {} && DisconnectJob(c) in q
    requires forall d :: d in gone ==> ConnectJob(d) !in q
    ensures Serves(p, gone, q, c) <==> Cost(Ahead(q, c), p.lost, gone) < p.spare
    decreases |q|
  {
    if q[0] != DisconnectJob(c) {
      var rest := q[1..];
      assert q == [q[0]] + rest;
      assert ([q[0]] + Ahead(rest, c))[1..] == Ahead(rest, c);
      if p.spare > 0 {
        ServesIffCount(Taking(p, q[0], gone), gone, rest, c);
      }
    }
  }

  /** The jobs that block a worker for ever, or do as long as the connect job is kept. */
  function LostJobs(s: State): set<JobId> {
    set j | j in s.heap && IsLostJob(s, j)
  }

  predicate IsLostJob(s: State, j: JobId)
    requires j in s.heap
  {
    Costs(s.heap[j].kind, Wrapped(s), Gone(s)) &&
    if s.heap[j].kind.DisconnectJob? then s.heap[j].stage != Sent else s.heap[j].stage in {Queued, Taken}
  }

  function Given(s: State, ws: set<WorkerId>): set<JobId> {
    set w | w in ws && w in s.workers && s.workers[w].Some? :: s.workers[w].value
  }

  lemma {:induction false} GivenSize(s: State, ws: set<WorkerId>)
    requires Placed(s) && forall w :: w in ws ==> w in s.workers && s.workers[w].Some?
    ensures |Given(s, ws)| == |ws|
    decreases ws
  {
    if ws != {} {
      var w :| w in ws;
      var j := s.workers[w].value;
      GivenSize(s, ws - {w});
      assert j !in Given(s, ws - {w}) by {
        assert forall v :: v in ws - {w} ==> s.workers[v] != s.workers[w];
      }
      assert Given(s, ws) == Given(s, ws - {w}) + {j};
    }
  }

  function LostIn(s: State, q: seq<JobId>): set<JobId> {
    set j | j in q && j in s.heap && Costs(s.heap[j].kind, Wrapped(s), Gone(s))
  }

  lemma {:induction false} LostInSize(s: State, q: seq<JobId>)
    requires forall i, k :: 0 <= i < k < |q| ==> q[i] != q[k]
    ensures |LostIn(s, q)| == Cost(Kinds(s.heap, q), Wrapped(s), Gone(s))
  {
    hide Wrapped, Gone;
    if q != [] {
      var rest := q[1..];
      LostInSize(s, rest);
      assert q == [q[0]] + rest && q[0] !in rest;
      assert Kinds(s.heap, q)[1..] == Kinds(s.heap, rest);
      if q[0] in s.heap && Costs(s.heap[q[0]].kind, Wrapped(s), Gone(s)) {
        assert LostIn(s, q) == LostIn(s, rest) + {q[0]};
      } else {
        assert LostIn(s, q) == LostIn(s, rest);
      }
    }
  }

  /** A worker that is not spare has such a job in hand. */
  lemma NotSpareHolds(s: State, w: WorkerId)
    requires Placed(s) && (Lost(s, w) || Keeps(s, w))
    ensures var j := s.workers[w].value; j in LostJobs(s) && j !in s.queue && s.workers[w].Some?
  {
  }

  /** The jobs of the workers that are not spare are none of those that wait. */
  lemma BadJobs(s: State, bad: set<WorkerId>)
    requires Placed(s) && bad == s.workers.Keys - Spare(s, {})
    ensures forall w :: w in bad ==> w in s.workers && s.workers[w].Some?
    ensures Given(s, bad) <= LostJobs(s) && Given(s, bad) !! LostIn(s, s.queue)
  {
    forall w | w in bad
      ensures s.workers[w].Some? && s.workers[w].value in LostJobs(s) && s.workers[w].value !in s.queue
    {
      SpareIs(s, w, {});
      NotSpareHolds(s, w);
    }
  }

  lemma SpareCount(s: State)
    requires Placed(s)
    ensures |s.workers.Keys| <= |Spare(s, {})| + |LostJobs(s)| - Cost(Waiting(s), Wrapped(s), Gone(s))
  {
    var bad := s.workers.Keys - Spare(s, {});
    BadJobs(s, bad);
    GivenSize(s, bad);
    LostInSize(s, s.queue);
    WaitingLost(s);
    hide Placed, Spare, LostJobs, LostIn, Given, Cost, Wrapped, Gone;
    var held, waiting := Given(s, bad), LostIn(s, s.queue);
    Fewer(held + waiting, LostJobs(s));
    assert |held + waiting| == |held| + |waiting|;
    Fewer(s.workers.Keys, Spare(s, {}) + bad);
  }

  lemma WaitingLost(s: State)
    requires Placed(s)
    ensures LostIn(s, s.queue) <= LostJobs(s)
  {
  }

  /** A client at Disconnect whose connect job was not dropped can be reported while there are fewer such
      jobs than workers. */
  lemma EnoughWorkers(ls: seq<Label>, c: ClientId)
    requires c in Run(Start, ls).clients && Run(Start, ls).clients[c].status == Disconnect
    requires Run(Start, ls).clients[c].jobs != 255 && |LostJobs(Run(Start, ls))| < |Run(Start, ls).workers.Keys|
    ensures exists more :: ByWorkers(more, {}) && Reports(Run(Start, ls), more, c)
  {
    var s := Run(Start, ls);
    ReachedProper(ls);
    ProperPlaced(s);
    GoneIs(s, c);
    JobsCount(ls, c);
    hide Proper, Inv, Placed, LostJobs, Gone, Wrapped, Spare, Kept, Reported, PastTheWait, TakenDisconnect, Waiting, Serves, Step, Run;
    SpareCount(s);
    if !Reported(s.clients[c].events) && !PastTheWait(s, c) && !TakenDisconnect(s, c) {
      WhereAnnounced(s, c);
      EnoughSpare(PoolOf(s, {}), Gone(s), Waiting(s), c);
    }
    ReportableIff(ls, c);
  }

  // ---------- when the pool can grow ----------

  /** n workers more. */
  lemma {:induction false} SpawnMore(s: State, n: nat) returns (ls: seq<Label>)
    ensures var t := Run(s, ls);
      |t.workers.Keys| == |s.workers.Keys| + n && t == s.(workers := t.workers)
  {
    if n == 0 {
      ls := [];
    } else {
      var before := SpawnMore(s, n - 1);
      var t := Run(s, before);
      var w := Bounded(t.workers.Keys);
      ls := before + [Spawn(w)];
      RunAppend(s, before, [Spawn(w)]);
      RunOne(t, Spawn(w));
      assert t.workers[w := None].Keys == t.workers.Keys + {w};
    }
  }

  lemma SameLost(s: State, t: State)
    requires t == s.(workers := t.workers)
    ensures LostJobs(t) == LostJobs(s)
  {
  }

  /** When workers may be started at any time, `jobs` at 255 is the only obstacle. */
  lemma ReportableIfGrown(ls: seq<Label>, c: ClientId)
    requires c in Run(Start, ls).clients && Run(Start, ls).clients[c].status == Disconnect
    ensures var s := Run(Start, ls);
      (exists more :: Reports(s, more, c)) <==>
      s.clients[c].jobs != 255 || PastTheWait(s, c) || Reported(s.clients[c].events)
  {
    var s := Run(Start, ls);
    ReachedProper(ls);
    ProperInv(s);
    JobsCount(ls, c);
    AtMostOneProcessJob(ls, c);
    GoneIs(s, c);
    hide Step, Run, Proper, Inv, Gone, LostJobs, Reported, PastTheWait, ByWorkers;
    if Reported(s.clients[c].events) || PastTheWait(s, c) {
      var more := Bring(s, c, {});
    } else if s.clients[c].jobs != 255 {
      var spawn := SpawnMore(s, |LostJobs(s)| + 1);
      var t := Run(s, spawn);
      SameLost(s, t);
      RunAppend(Start, ls, spawn);
      EnoughWorkers(ls + spawn, c);
      var more :| ByWorkers(more, {}) && Reports(t, more, c);
      RunAppend(s, spawn, more);
      JoinReports(s, spawn, more, c);
    } else {
      forall more
        ensures !Reports(s, more, c)
      {
        StuckForever(s, more, c);
        StuckSilent(Run(s, more), c);
      }
    }
  }

  lemma JoinReports(s: State, a: seq<Label>, b: seq<Label>, c: ClientId)
    requires Run(s, a + b) == Run(Run(s, a), b) && Reports(Run(s, a), b, c)
    ensures Reports(s, a + b, c)
  {
  }

  lemma StuckSilent(s: State, c: ClientId)
    requires Stuck(s, c)
    ensures !Reported(s.clients[c].events)
  {
  }
}
