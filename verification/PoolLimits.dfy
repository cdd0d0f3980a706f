/** What a pool with a fixed number of workers cannot do: when it is at a stand for good, and when
    `Client.connect` cannot follow `Client.disconnect`. */
module PoolLimits {

  import opened ClientProtocol
  import opened ClientOutcomes
  import opened PoolModel
  import opened PoolReports

  // ---------- the whole pool blocked ----------

  /** Every worker has a disconnect job in hand that waits for ever. */
  predicate Blocked(s: State) {
    forall w :: w in s.workers ==> Lost(s, w)
  }

  lemma LostStays(s: State, l: Label, w: WorkerId)
    requires Inv(s) && Lost(s, w)
    ensures Lost(Step(s, l), w)
  {
    var j := s.workers[w].value;
    var c := s.heap[j].kind.client;
    assert ClientOk(s, c);
    assert s.clients[c].jobs == 255 && s.heap[j].stage != Queued;
    HistoryGrows(s, l, c);
    hide ClientOk, JobOk, Inv;
    if (l.Take? || l.Check? || l.Advance?) && l.w != w {
      KeepsItsJob(s, l, w);
    }
    hide Placed;
  }

  lemma SameWorkers(s: State, l: Label)
    requires !l.Spawn?
    ensures Step(s, l).workers.Keys == s.workers.Keys
  {
  }

  lemma BlockedStep(s: State, l: Label)
    requires Inv(s) && Blocked(s) && !l.Spawn?
    ensures Blocked(Step(s, l)) && TakenBy(s, l) == []
  {
    hide Step, Inv, Lost;
    SameWorkers(s, l);
    forall w | w in s.workers
      ensures Lost(Step(s, l), w)
    {
      LostStays(s, l, w);
    }
    NoneTaken(s, l);
  }

  lemma NoneTaken(s: State, l: Label)
    requires Blocked(s)
    ensures TakenBy(s, l) == []
  {
    if l.Take? && l.w in s.workers { assert Lost(s, l.w); }
  }

  /** Nothing was dispatched but kicks. */
  predicate OnlyKicked(es: seq<Event>, es': seq<Event>) {
    es <= es' && forall i :: |es| <= i < |es'| ==> es'[i] == Kicked
  }

  lemma LostIdles(s: State, w: WorkerId)
    requires Inv(s) && Lost(s, w)
    ensures Step(s, Advance(w)) == s
  {
    assert ClientOk(s, s.heap[s.workers[w].value].kind.client);
    assert s.clients[s.heap[s.workers[w].value].kind.client].jobs == 255;
    hide ClientOk, JobOk, Placed, Inv;
  }

  lemma OthersKick(s: State, l: Label, c: ClientId)
    requires c in s.clients && !l.Advance?
    ensures c in Step(s, l).clients
    ensures Step(s, l).clients[c].events == s.clients[c].events || Step(s, l).clients[c].events == s.clients[c].events + [Kicked]
  {
  }

  lemma BlockedEvents(s: State, l: Label, c: ClientId)
    requires Inv(s) && Blocked(s) && c in s.clients
    ensures c in Step(s, l).clients && OnlyKicked(s.clients[c].events, Step(s, l).clients[c].events)
  {
    if l.Advance? {
      if l.w in s.workers {
        LostIdles(s, l.w);
      } else {
        assert Step(s, l) == s;
      }
    } else {
      hide Step;
      OthersKick(s, l, c);
    }
    hide Inv, Step, Blocked;
  }

  /** Then no job is taken any more, and nothing but kicks is dispatched, until a worker is started. */
  lemma {:induction false} BlockedForGood(s: State, ls: seq<Label>, c: ClientId)
    requires Inv(s) && Blocked(s) && NoSpawn(ls)
    ensures Inv(Run(s, ls)) && Blocked(Run(s, ls)) && TakenIn(s, ls) == []
    ensures c in s.clients ==> c in Run(s, ls).clients && OnlyKicked(s.clients[c].events, Run(s, ls).clients[c].events)
  {
    hide Inv, Blocked, Step;
    if ls != [] {
      var before, l := ls[..|ls| - 1], ls[|ls| - 1];
      BlockedForGood(s, before, c);
      StepKeeps(Run(s, before), l);
      BlockedStep(Run(s, before), l);
      if c in s.clients {
        BlockedEvents(Run(s, before), l, c);
        KickedTwice(s.clients[c].events, Run(s, before).clients[c].events, Run(s, ls).clients[c].events);
      }
    }
  }

  lemma KickedTwice(a: seq<Event>, b: seq<Event>, c: seq<Event>)
    requires OnlyKicked(a, b) && OnlyKicked(b, c)
    ensures OnlyKicked(a, c)
  {
    forall i | |a| <= i < |c|
      ensures c[i] == Kicked
    {
      if i < |b| { assert c[i] == b[i]; }
    }
  }

  /** A worker that does not wait for ever can be made free by the workers alone. */
  lemma FreeAny(s: State, w: WorkerId) returns (ls: seq<Label>)
    requires Proper(s) && w in s.workers && !Lost(s, w)
    ensures ByWorkers(ls, {})
    ensures var t := Run(s, ls);
      Proper(t) && w in t.workers && t.workers[w].None? && t.queue == s.queue && t.workers.Keys == s.workers.Keys
  {
    hide Proper, Lost, Step, Reported;
    if s.workers[w].None? {
      ls := [];
    } else if Keeps(s, w) {
      ls := [Check(w)];
      RunOne(s, Check(w));
      StepProper(s, Check(w));
      DropIs(s, w);
    } else {
      SpareIs(s, w, {});
      hide Keeps, SameView, Spare;
      ls := Clear(s, w, {});
    }
  }

  lemma TakenLast(s: State, ls: seq<Label>, l: Label)
    ensures TakenIn(s, ls + [l]) == TakenIn(s, ls) + TakenBy(Run(s, ls), l)
  {
    assert (ls + [l])[..|ls|] == ls;
  }

  /** From every reachable state, some continuation without a new worker takes a job exactly when not all
      workers wait for ever. */
  lemma AliveIff(ls: seq<Label>)
    ensures var s := Run(Start, ls); (exists more :: NoSpawn(more) && TakenIn(s, more) != []) <==> !Blocked(s)
  {
    hide Proper, Step, NoSpawn, ByWorkers, TakenBy;
    var s := Run(Start, ls);
    ReachedProper(ls);
    ProperInv(s);
    if !Blocked(s) {
      var w :| w in s.workers && !Lost(s, w);
      var free := FreeAny(s, w);
      var t := Run(s, free);
      var j := Bounded(t.heap.Keys);
      RunAppend(s, free, [Custom(j)]);
      RunOne(t, Custom(j));
      ProperPlaced(t);
      CustomTaken(t, w, j);
      TakenLast(s, free + [Custom(j)], Take(w));
      WorkersSpawnNone(free, {});
      NoSpawnTwo(free, Custom(j), Take(w));
    } else {
      forall more | NoSpawn(more)
        ensures TakenIn(s, more) == []
      {
        BlockedForGood(s, more, 0);
      }
    }
  }

  lemma NoSpawnTwo(ls: seq<Label>, a: Label, b: Label)
    requires NoSpawn(ls) && !a.Spawn? && !b.Spawn?
    ensures NoSpawn(ls + [a] + [b])
  {
  }

  lemma CustomTaken(s: State, w: WorkerId, j: JobId)
    requires Placed(s) && w in s.workers && s.workers[w].None? && j !in s.heap
    ensures TakenBy(Step(s, Custom(j)), Take(w)) != []
  {
    var s' := Step(s, Custom(j));
    if s.queue != [] { assert s'.queue[0] == s.queue[0]; }
  }

  // ---------- every pool can be blocked ----------

  function Live(s: State): set<WorkerId> {
    set w | w in s.workers && !Lost(s, w)
  }

  lemma LiveStep(s: State, l: Label)
    requires Inv(s) && !l.Spawn?
    ensures Live(Step(s, l)) <= Live(s)
  {
    hide Step, Inv, Lost;
    SameWorkers(s, l);
    forall w | w in s.workers && Lost(s, w)
      ensures Lost(Step(s, l), w)
    {
      LostStays(s, l, w);
    }
  }

  lemma {:induction false} LiveRun(s: State, ls: seq<Label>)
    requires Proper(s) && NoSpawn(ls)
    ensures Proper(Run(s, ls)) && Live(Run(s, ls)) <= Live(s)
  {
    hide Step, Proper, Live;
    if ls != [] {
      var before := ls[..|ls| - 1];
      LiveRun(s, before);
      ProperInv(Run(s, before));
      StepProper(Run(s, before), ls[|ls| - 1]);
      LiveStep(Run(s, before), ls[|ls| - 1]);
      LiveLess(s, Run(s, before), Run(s, ls));
    }
  }

  lemma LiveLess(s: State, t: State, u: State)
    requires Live(t) <= Live(s) && Live(u) <= Live(t)
    ensures Live(u) <= Live(s)
  {
  }

  /** A client connects and breaks off, and a free worker takes its two jobs: the worker waits for ever. */
  lemma BlockOne(s: State, w: WorkerId) returns (ls: seq<Label>)
    requires Proper(s) && w in s.workers && s.workers[w].None? && s.queue == []
    ensures NoSpawn(ls) && Lost(Run(s, ls), w)
  {
    var x := Bounded(s.clients.Keys);
    var j := Bounded(s.heap.Keys);
    var i := j + 1;
    var come, go := [Register(x), EnqueueConnect(x, j), Error(x, i)], [Take(w), Check(w), Take(w)];
    ls := come + go;
    RunThree(s, Register(x), EnqueueConnect(x, j), Error(x, i));
    var t := Run(s, come);
    Comes(s, x, j, i);
    ProperPlaced(s);
    hide Proper, Step;
    RunThree(t, Take(w), Check(w), Take(w));
    RunAppend(s, come, go);
    Breaks2(t, w, x, j, i);
  }

  /** A connect job and a disconnect job of client x are all that waits. */
  predicate BreaksOff(s: State, x: ClientId, j: JobId, i: JobId) {
    && s.queue == [j, i] && i != j && j in s.heap && s.heap[j] == Job(ConnectJob(x), Queued)
    && i in s.heap && s.heap[i] == Job(DisconnectJob(x), Queued)
    && x in s.clients && s.clients[x].status == Disconnect
  }

  lemma Comes(s: State, x: ClientId, j: JobId, i: JobId)
    requires x !in s.clients && j !in s.heap && i !in s.heap && i != j && s.queue == []
    ensures var t := Step(Step(Step(s, Register(x)), EnqueueConnect(x, j)), Error(x, i));
      BreaksOff(t, x, j, i) && t.workers == s.workers
  {
    var s1 := Step(s, Register(x));
    var s2 := Step(s1, EnqueueConnect(x, j));
    assert s2.queue == [j] && s2.heap == s.heap[j := Job(ConnectJob(x), Queued)] && x in s2.clients;
  }

  lemma Breaks2(s: State, w: WorkerId, x: ClientId, j: JobId, i: JobId)
    requires BreaksOff(s, x, j, i) && w in s.workers && s.workers[w].None?
    ensures Lost(Step(Step(Step(s, Take(w)), Check(w)), Take(w)), w)
  {
    var s1 := Step(s, Take(w));
    assert s1.queue == [i] && s1.heap == s.heap[j := Job(ConnectJob(x), Taken)] && s1.workers == s.workers[w := Some(j)];
    var s2 := Step(s1, Check(w));
    assert s2.queue == [i] && i in s2.heap && s2.heap[i] == Job(DisconnectJob(x), Queued);
    assert x in s2.clients && s2.clients[x].dropped && s2.workers[w].None?;
  }

  /** From every reachable state, clients that connect and break off can bring the pool to a stand. */
  lemma {:induction false} BlockAll(s: State) returns (ls: seq<Label>)
    requires Proper(s)
    ensures NoSpawn(ls) && Proper(Run(s, ls)) && Blocked(Run(s, ls))
    decreases Live(s), |s.queue|
  {
    hide Proper, Step, Lost, NoSpawn;
    if Live(s) == {} {
      ls := [];
      NobodyLive(s);
    } else {
      var w :| w in Live(s);
      var first := FreeAny(s, w);
      var t := Run(s, first);
      WorkersSpawnNone(first, {});
      LiveRun(s, first);
      var next := MoreBlocked(t, w);
      var u := Run(t, next);
      LiveRun(t, next);
      LiveLess(s, t, u);
      if u.queue == [] || Lost(u, w) { assert Lost(u, w) ==> w !in Live(u); }
      var rest := BlockAll(u);
      ls := first + (next + rest);
      RunAppend(t, next, rest);
      RunAppend(s, first, next + rest);
      NoSpawnJoin(next, rest);
      NoSpawnJoin(first, next + rest);
    }
  }

  lemma NoSpawnJoin(a: seq<Label>, b: seq<Label>)
    requires NoSpawn(a) && NoSpawn(b)
    ensures NoSpawn(a + b)
  {
  }

  lemma NobodyLive(s: State)
    requires Live(s) == {}
    ensures Blocked(s) && NoSpawn([])
  {
    forall w | w in s.workers
      ensures Lost(s, w)
    {
      assert w !in Live(s);
    }
  }

  /** A free worker takes a job, or there is none and it comes to wait for ever. */
  lemma MoreBlocked(s: State, w: WorkerId) returns (ls: seq<Label>)
    requires Proper(s) && w in s.workers && s.workers[w].None?
    ensures NoSpawn(ls)
    ensures if s.queue != [] then |Run(s, ls).queue| < |s.queue| else Lost(Run(s, ls), w)
  {
    if s.queue == [] {
      ls := BlockOne(s, w);
    } else {
      ls := [Take(w)];
      RunOne(s, Take(w));
      ProperPlaced(s);
      TakeIs(s, w);
    }
  }

  function Spawns(n: nat): seq<Label> {
    seq(n, i requires 0 <= i < n => Spawn(i))
  }

  function Idle(n: nat): (ws: map<WorkerId, Option<JobId>>)
    ensures |ws.Keys| == n && forall w :: w in ws ==> w < n && ws[w].None?
  {
    if n == 0 then map[] else
      var ws := Idle(n - 1);
      assert ws[n - 1 := None].Keys == ws.Keys + {n - 1};
      ws[n - 1 := None]
  }

  lemma {:induction false} Spawned(n: nat)
    ensures Run(Start, Spawns(n)) == Start.(workers := Idle(n))
  {
    if n > 0 {
      assert Spawns(n)[..n - 1] == Spawns(n - 1);
      Spawned(n - 1);
    }
  }

  /** Whatever the size of the pool is. */
  lemma EveryPoolBlocks(n: nat) returns (ls: seq<Label>)
    ensures NoSpawn(ls)
    ensures var s := Run(Start, Spawns(n) + ls); |s.workers.Keys| == n && Blocked(s)
  {
    hide Proper, Step, Blocked, NoSpawn, Idle;
    ReachedProper(Spawns(n));
    var s := Run(Start, Spawns(n));
    Spawned(n);
    ls := BlockAll(s);
    RunAppend(Start, Spawns(n), ls);
    SameWorkersRun(s, ls);
  }

  lemma Arrive(s: State) returns (ls: seq<Label>, x: ClientId)
    requires Inv(s) && Blocked(s)
    ensures NoSpawn(ls)
    ensures var t := Run(s, ls);
      && Inv(t) && Blocked(t) && t.workers.Keys == s.workers.Keys
      && x in t.clients && t.clients[x].status == Disconnect && t.clients[x].jobs == 0 && t.clients[x].events == []
  {
    hide Step, Blocked, NoSpawn, Inv;
    x := Bounded(s.clients.Keys);
    var j := Bounded(s.heap.Keys);
    ls := [Register(x), EnqueueConnect(x, j), Error(x, j + 1)];
    RunThree(s, Register(x), EnqueueConnect(x, j), Error(x, j + 1));
    ComesIdle(s, x, j, j + 1);
    NoSpawnThree(Register(x), EnqueueConnect(x, j), Error(x, j + 1));
    BlockedForGood(s, ls, x);
    SameWorkersRun(s, ls);
  }

  lemma SilentAfter(s: State, x: ClientId, more: seq<Label>)
    requires Inv(s) && Blocked(s) && x in s.clients && s.clients[x].events == [] && NoSpawn(more)
    ensures !Reports(s, more, x)
  {
    hide Step, Blocked, NoSpawn, Inv, Reported;
    BlockedForGood(s, more, x);
    KickedOnly(Run(s, more).clients[x].events);
  }

  /** A client that connects and breaks off while the pool is blocked: its `jobs` are 0, and yet no
      continuation without a new worker reports it. */
  lemma HealthyClientBlocked(n: nat) returns (ls: seq<Label>, x: ClientId)
    ensures NoSpawn(ls)
    ensures var s := Run(Start, Spawns(n) + ls);
      && |s.workers.Keys| == n && x in s.clients && s.clients[x].status == Disconnect && s.clients[x].jobs == 0
      && forall more :: NoSpawn(more) ==> !Reports(s, more, x)
  {
    hide *;
    var block := EveryPoolBlocks(n);
    var s := Run(Start, Spawns(n) + block);
    ReachedProper(Spawns(n) + block);
    ProperInv(s);
    var come;
    come, x := Arrive(s);
    ls := block + come;
    NoSpawnJoin(block, come);
    assert Spawns(n) + ls == (Spawns(n) + block) + come;
    RunAppend(Start, Spawns(n) + block, come);
    forall more | NoSpawn(more)
      ensures !Reports(Run(s, come), more, x)
    {
      SilentAfter(Run(s, come), x, more);
    }
  }

  lemma NoSpawnThree(a: Label, b: Label, c: Label)
    requires !a.Spawn? && !b.Spawn? && !c.Spawn?
    ensures NoSpawn([a, b, c])
  {
  }

  lemma KickedOnly(es: seq<Event>)
    requires OnlyKicked([], es)
    ensures !Reported(es)
  {
  }

  lemma ComesIdle(s: State, x: ClientId, j: JobId, i: JobId)
    requires x !in s.clients && j !in s.heap && i !in s.heap && i != j
    ensures var t := Step(Step(Step(s, Register(x)), EnqueueConnect(x, j)), Error(x, i));
      x in t.clients && t.clients[x] == FreshClient.(status := Disconnect)
  {
  }

  lemma {:induction false} SameWorkersRun(s: State, ls: seq<Label>)
    requires NoSpawn(ls)
    ensures Run(s, ls).workers.Keys == s.workers.Keys
  {
    hide Step;
    if ls != [] {
      SameWorkersRun(s, ls[..|ls| - 1]);
      SameWorkers(Run(s, ls[..|ls| - 1]), ls[|ls| - 1]);
    }
  }

  // ---------- the connect event after the disconnect event ----------

  /** The worker has the connect job of the client in hand, past its check, with its event to come. */
  predicate HoldsConnect(s: State, w: WorkerId, c: ClientId) {
    Holds(s, w) && s.heap[s.workers[w].value] == Job(ConnectJob(c), Checked)
  }

  /** Some worker does, and the client can be reported while that worker does nothing. */
  predicate Overtakable(s: State, c: ClientId)
    requires c in s.clients
  {
    exists w :: w in s.workers && HoldsConnect(s, w, c) && Reportable(s, c, {w})
  }

  lemma ReservesOne(s: State, w: WorkerId, c: ClientId)
    requires HoldsConnect(s, w, c)
    ensures Reserved(s, {w})
  {
  }

  /** The worker keeps its job while the others act. */
  lemma {:induction false} KeepsConnect(s: State, ls: seq<Label>, w: WorkerId, c: ClientId)
    requires Proper(s) && HoldsConnect(s, w, c) && ByWorkers(ls, {w})
    ensures Proper(Run(s, ls)) && HoldsConnect(Run(s, ls), w, c)
  {
    hide Proper, Step;
    if ls != [] {
      var before := ls[..|ls| - 1];
      KeepsConnect(s, before, w, c);
      var t := Run(s, before);
      assert ByWorker(ls[|ls| - 1], {w});
      ProperPlaced(t);
      KeepsItsJob(t, ls[|ls| - 1], w);
      StepProper(t, ls[|ls| - 1]);
    }
  }

  lemma OvertakeBy(s: State, w: WorkerId, c: ClientId) returns (ls: seq<Label>)
    requires Proper(s) && c in Gone(s) && c in s.clients && HoldsConnect(s, w, c) && Reportable(s, c, {w})
    ensures NoSpawn(ls) && Inverts(s, ls, c)
  {
    hide Proper, Step, Reportable, Gone, Reserved, NoSpawn, ByWorkers;
    ReservesOne(s, w, c);
    var report := Bring(s, c, {w});
    var t := Run(s, report);
    KeepsConnect(s, report, w, c);
    ls := report + [Advance(w)];
    RunAppend(s, report, [Advance(w)]);
    RunOne(t, Advance(w));
    Greets(t, w, t.workers[w].value, c);
    InvertedAppend(t.clients[c].events, Connected);
    WorkersSpawnNone(report, {w});
    NoSpawnJoin(report, [Advance(w)]);
  }

  /** The connect event cannot come last: it cannot come any more, or it can only come first. */
  ghost predicate InOrder(s: State, c: ClientId) {
    && c in Gone(s) && c in s.clients && !Inverted(s.clients[c].events)
    && (Calm(s, c) || exists w :: w in s.workers && HoldsConnect(s, w, c) && !Reportable(s, c, {w}))
  }

  lemma InOrderStep(s: State, l: Label, c: ClientId)
    requires Proper(s) && InOrder(s, c) && !l.Spawn?
    ensures InOrder(Step(s, l), c)
  {
    hide Proper, Step, Reportable, Gone, Inverted, HoldsConnect;
    GoneStays(s, l, c);
    GoneIs(Step(s, l), c);
    if Calm(s, c) {
      CalmStep(s, l, c);
    } else {
      var w :| w in s.workers && HoldsConnect(s, w, c) && !Reportable(s, c, {w});
      NotReportedYet(s, l, c, w);
      if l == Advance(w) {
        GreetedCalm(s, w, c);
      } else {
        HoldsOn(s, l, w, c);
      }
    }
  }

  lemma NotReportedYet(s: State, l: Label, c: ClientId, w: WorkerId)
    requires c in s.clients && !Reportable(s, c, {w}) && c in Step(s, l).clients
    ensures !Inverted(Step(s, l).clients[c].events)
  {
    hide Step, PastTheWait;
    var es, es' := s.clients[c].events, Step(s, l).clients[c].events;
    EventsStep(s, l, c);
    NoDisconnectNotInverted(es);
    if es' != es {
      var e :| es' == es + [e] && (e.Connected? ==> CheckedConnect(s, c));
      InvertedAppend(es, e);
    }
  }

  lemma GreetedCalm(s: State, w: WorkerId, c: ClientId)
    requires Proper(s) && c in Gone(s) && HoldsConnect(s, w, c) && c in Step(s, Advance(w)).clients
    requires !Inverted(Step(s, Advance(w)).clients[c].events) && c in Gone(Step(s, Advance(w)))
    ensures Calm(Step(s, Advance(w)), c)
  {
    var j := s.workers[w].value;
    OnlyConnect(s, j, c);
    hide Proper, Inverted, Step;
    GreetsHeap(s, w, j, c);
    GoneIs(Step(s, Advance(w)), c);
  }

  lemma OnlyConnect(s: State, j: JobId, c: ClientId)
    requires Inv(s) && c in s.clients && j in s.heap && s.heap[j].kind == ConnectJob(c)
    ensures forall i :: i in s.heap && i != j ==> s.heap[i].kind != ConnectJob(c)
  {
    assert ClientOk(s, c) && j in Connecting(s, c);
    Singleton(Connecting(s, c), j);
    forall i | i in s.heap && i != j
      ensures s.heap[i].kind != ConnectJob(c)
    {
      assert i !in Connecting(s, c);
    }
  }

  lemma GreetsHeap(s: State, w: WorkerId, j: JobId, c: ClientId)
    requires HoldsConnect(s, w, c) && s.workers[w] == Some(j) && c in s.clients
    ensures Step(s, Advance(w)).heap == s.heap[j := Job(ConnectJob(c), Sent)]
  {
  }

  lemma HoldsOn(s: State, l: Label, w: WorkerId, c: ClientId)
    requires Proper(s) && HoldsConnect(s, w, c) && c in s.clients && c in Gone(s) && !Reportable(s, c, {w})
    requires !l.Spawn? && l != Advance(w) && c in Step(s, l).clients
    ensures w in Step(s, l).workers && HoldsConnect(Step(s, l), w, c) && !Reportable(Step(s, l), c, {w})
  {
    ProperPlaced(s);
    StillHolds(s, l, w, c);
    hide Step, Proper, Reportable, HoldsConnect, Gone;
    ReservesOne(s, w, c);
    ReservesOne(Step(s, l), w, c);
    if Reportable(Step(s, l), c, {w}) { ReportableBack(s, l, c, {w}); }
  }

  lemma StillHolds(s: State, l: Label, w: WorkerId, c: ClientId)
    requires Placed(s) && HoldsConnect(s, w, c) && l != Advance(w)
    ensures HoldsConnect(Step(s, l), w, c)
  {
    if (l.Take? || l.Check? || l.Advance?) && l.w != w {
      KeepsItsJob(s, l, w);
    }
    hide Placed;
  }

  lemma {:induction false} InOrderRun(s: State, ls: seq<Label>, c: ClientId)
    requires Proper(s) && InOrder(s, c) && NoSpawn(ls)
    ensures Proper(Run(s, ls)) && InOrder(Run(s, ls), c)
  {
    hide Proper, InOrder, Step;
    if ls != [] {
      var before := ls[..|ls| - 1];
      InOrderRun(s, before, c);
      StepProper(Run(s, before), ls[|ls| - 1]);
      InOrderStep(Run(s, before), ls[|ls| - 1], c);
    }
  }

  /** From every reachable state with the client at Disconnect: some continuation without a new worker has
      `Client.connect` follow `Client.disconnect` exactly when that has happened, or a worker has the
      connect job in hand, past its check, and the others can report the client without it. */
  lemma ConnectCanFollowIff(ls: seq<Label>, c: ClientId)
    requires c in Run(Start, ls).clients && Run(Start, ls).clients[c].status == Disconnect
    ensures var s := Run(Start, ls);
      (exists more :: NoSpawn(more) && Inverts(s, more, c)) <==> Inverted(s.clients[c].events) || Overtakable(s, c)
  {
    hide Proper, Step, Gone, Reportable, Inverted, HoldsConnect;
    var s := Run(Start, ls);
    ReachedProper(ls);
    GoneIs(s, c);
    if Inverted(s.clients[c].events) {
      assert NoSpawn([]) && Inverts(s, [], c);
    } else if Overtakable(s, c) {
      var w :| w in s.workers && HoldsConnect(s, w, c) && Reportable(s, c, {w});
      var more := OvertakeBy(s, w, c);
    } else {
      NotOvertakable(s, c);
      forall more | NoSpawn(more)
        ensures !Inverts(s, more, c)
      {
        InOrderRun(s, more, c);
      }
    }
  }

  lemma NotOvertakable(s: State, c: ClientId)
    requires Proper(s) && c in Gone(s) && c in s.clients && !Inverted(s.clients[c].events) && !Overtakable(s, c)
    ensures InOrder(s, c)
  {
    hide Reportable, Inverted;
    if CheckedConnect(s, c) {
      var j :| j in s.heap && s.heap[j] == Job(ConnectJob(c), Checked);
      ProperInv(s);
      var w := HolderOf(s, j);
      assert HoldsConnect(s, w, c);
    }
  }

  // ---------- one worker, and two ----------

  /** Whoever was reported has no connect event to come. */
  ghost predicate AllCalm(s: State) {
    forall c :: c in s.clients && Reported(s.clients[c].events) ==> Calm(s, c)
  }

  lemma OneWorkerStep(s: State, l: Label)
    requires Proper(s) && Proper(Step(s, l)) && AllCalm(s) && |Step(s, l).workers.Keys| <= 1
    ensures AllCalm(Step(s, l))
  {
    hide Proper, Step, Calm, Reported;
    forall c | c in Step(s, l).clients && Reported(Step(s, l).clients[c].events)
      ensures Calm(Step(s, l), c)
    {
      if c in s.clients && Reported(s.clients[c].events) {
        CalmStep(s, l, c);
      } else {
        JustReported(s, l, c);
      }
    }
  }

  lemma JustReported(s: State, l: Label, c: ClientId)
    requires Proper(s) && Proper(Step(s, l)) && |Step(s, l).workers.Keys| <= 1
    requires c in Step(s, l).clients && Reported(Step(s, l).clients[c].events)
    requires c in s.clients ==> !Reported(s.clients[c].events)
    ensures Calm(Step(s, l), c)
  {
    var s' := Step(s, l);
    Reporter(s, l, c);
    NoDisconnectNotInverted(s.clients[c].events);
    InvertedAppend(s.clients[c].events, Event.Disconnected);
    assert ClientOk(s', c);
    hide Step, Inverted, ClientOk, Reported;
    if CheckedConnect(s', c) {
      var j :| j in s'.heap && s'.heap[j] == Job(ConnectJob(c), Checked);
      ProperInv(s');
      var v := HolderOf(s', j);
      Two(s'.workers.Keys, v, l.w);
    }
  }

  lemma Two<T>(a: set<T>, x: T, y: T)
    requires x in a && y in a && |a| <= 1
    ensures x == y
  {
    Singleton(a, x);
  }

  /** Who reports a client has no job then. */
  lemma Reporter(s: State, l: Label, c: ClientId)
    requires c in Step(s, l).clients && Reported(Step(s, l).clients[c].events)
    requires c in s.clients ==> !Reported(s.clients[c].events)
    ensures var s' := Step(s, l);
      && c in s.clients && l.Advance? && l.w in s'.workers && s'.workers[l.w].None?
      && s'.clients[c].events == s.clients[c].events + [Event.Disconnected]
  {
    var s' := Step(s, l);
    if l.Advance? {
      if Holds(s, l.w) && s.heap[s.workers[l.w].value] == Job(DisconnectJob(c), Sent) {
        SaysGoodbye(s, l.w, s.workers[l.w].value, c);
      }
    }
  }

  lemma MoreWorkers(s: State, l: Label)
    ensures s.workers.Keys <= Step(s, l).workers.Keys
  {
  }

  lemma {:induction false} OneWorkerCalm(ls: seq<Label>)
    requires |Run(Start, ls).workers.Keys| <= 1
    ensures AllCalm(Run(Start, ls))
  {
    hide Proper, Step, AllCalm;
    if ls != [] {
      var before, l := ls[..|ls| - 1], ls[|ls| - 1];
      ReachedProper(before);
      ReachedProper(ls);
      MoreWorkers(Run(Start, before), l);
      Fewer(Run(Start, before).workers.Keys, Run(Start, ls).workers.Keys);
      OneWorkerCalm(before);
      OneWorkerStep(Run(Start, before), l);
    } else {
      NobodyThere();
    }
  }

  lemma NobodyThere()
    ensures AllCalm(Start)
  {
  }

  /** With one worker, `Client.connect` never follows `Client.disconnect`. */
  lemma OneWorkerInOrder(ls: seq<Label>, c: ClientId)
    requires |Run(Start, ls).workers.Keys| <= 1 && c in Run(Start, ls).clients
    ensures !Inverted(Run(Start, ls).clients[c].events)
  {
    OneWorkerCalm(ls);
    NoDisconnectNotInverted2(Run(Start, ls), c);
  }

  lemma NoDisconnectNotInverted2(s: State, c: ClientId)
    requires AllCalm(s) && c in s.clients
    ensures !Inverted(s.clients[c].events)
  {
    if !Reported(s.clients[c].events) { NoDisconnectNotInverted(s.clients[c].events); }
  }

  /** A new client's connect job is past its check when the client breaks off. */
  lemma OneBreaksLate(s: State, w: WorkerId) returns (ls: seq<Label>, x: ClientId)
    requires Placed(s) && s.queue == [] && w in s.workers && s.workers[w].None?
    ensures NoSpawn(ls)
    ensures var u := Run(s, ls);
      && u.workers.Keys == s.workers.Keys && (forall v :: v in s.workers && v != w ==> u.workers[v] == s.workers[v])
      && HoldsConnect(u, w, x) && |u.queue| == 1 && u.queue[0] in u.heap && u.heap[u.queue[0]].kind == DisconnectJob(x)
      && x in u.clients && u.clients[x].status == Disconnect && !u.clients[x].dropped
  {
    hide Placed, HoldsConnect, Step;
    x := Bounded(s.clients.Keys);
    var j := Bounded(s.heap.Keys);
    var come, go := [Register(x), EnqueueConnect(x, j), Take(w)], [Check(w), Error(x, j + 1)];
    ls := come + go;
    ConnectTaken(s, w, x, j);
    RunThree(s, Register(x), EnqueueConnect(x, j), Take(w));
    var t := Run(s, come);
    BreaksLate(t, w, x, j, j + 1);
    RunTwo(t, Check(w), Error(x, j + 1));
    RunAppend(s, come, go);
  }

  /** With two free workers and nothing waiting it can be made to: one checks the connect job of a new
      client, the client breaks off, and the other one reports it. */
  lemma TwoFreeInvert(s: State, v: WorkerId, w: WorkerId) returns (ls: seq<Label>, x: ClientId)
    requires Proper(s) && s.queue == [] && v != w && v in s.workers && w in s.workers
    requires s.workers[v].None? && s.workers[w].None?
    ensures NoSpawn(ls) && Inverts(s, ls, x)
  {
    hide *;
    ProperPlaced(s);
    var late;
    late, x := OneBreaksLate(s, w);
    var u := Run(s, late);
    RunProper(s, late);
    OneServes(u, v, w, x);
    GoneIs(u, x);
    var rest := OvertakeBy(u, w, x);
    ls := late + rest;
    RunAppend(s, late, rest);
    NoSpawnJoin(late, rest);
    InvertsLater(s, late, rest, x);
  }

  lemma InvertsLater(s: State, a: seq<Label>, b: seq<Label>, c: ClientId)
    requires Run(s, a + b) == Run(Run(s, a), b) && Inverts(Run(s, a), b, c)
    ensures Inverts(s, a + b, c)
  {
  }

  lemma ConnectTaken(s: State, w: WorkerId, x: ClientId, j: JobId)
    requires x !in s.clients && j !in s.heap && s.queue == [] && w in s.workers && s.workers[w].None?
    ensures var t := Step(Step(Step(s, Register(x)), EnqueueConnect(x, j)), Take(w));
      && t.queue == [] && t.heap == s.heap[j := Job(ConnectJob(x), Taken)] && t.workers == s.workers[w := Some(j)]
      && x in t.clients && t.clients[x] == FreshClient
  {
    var s1 := Step(s, Register(x));
    var s2 := Step(s1, EnqueueConnect(x, j));
    assert s2.queue == [j] && s2.heap == s.heap[j := Job(ConnectJob(x), Queued)] && s2.workers == s.workers;
  }

  lemma BreaksLate(s: State, w: WorkerId, x: ClientId, j: JobId, i: JobId)
    requires j in s.heap && s.heap[j] == Job(ConnectJob(x), Taken) && s.queue == [] && i !in s.heap
    requires w in s.workers && s.workers[w] == Some(j) && x in s.clients && s.clients[x] == FreshClient
    ensures var t := Step(Step(s, Check(w)), Error(x, i));
      && t.queue == [i] && i in t.heap && t.heap[i] == Job(DisconnectJob(x), Queued) && t.workers == s.workers
      && HoldsConnect(t, w, x) && x in t.clients && t.clients[x].status == Disconnect && !t.clients[x].dropped
  {
    var s1 := Step(s, Check(w));
    assert s1.heap == s.heap[j := Job(ConnectJob(x), Checked)] && s1.queue == [];
  }

  lemma OneServes(s: State, v: WorkerId, w: WorkerId, x: ClientId)
    requires v != w && v in s.workers && s.workers[v].None? && HoldsConnect(s, w, x)
    requires |s.queue| == 1 && s.queue[0] in s.heap && s.heap[s.queue[0]].kind == DisconnectJob(x)
    requires x in s.clients && s.clients[x].status == Disconnect && !s.clients[x].dropped
    ensures x in Gone(s) && Reportable(s, x, {w})
  {
    assert v in Spare(s, {w});
    KindsAt(s.heap, s.queue, 0);
  }

  /** So it can happen in a pool exactly when that has two workers or more. */
  lemma InversionNeedsTwo(n: nat)
    ensures (exists ls, c :: NoSpawn(ls) && Inverts(Run(Start, Spawns(n)), ls, c)) <==> n >= 2
  {
    hide Proper, Step, Run, NoSpawn, Inverts;
    var s := Run(Start, Spawns(n));
    ReachedProper(Spawns(n));
    Spawned(n);
    if n >= 2 {
      TwoIdle(n);
      var ls, x := TwoFreeInvert(s, 0, 1);
    } else {
      forall ls, c | NoSpawn(ls)
        ensures !Inverts(s, ls, c)
      {
        SameWorkersRun(s, ls);
        RunAppend(Start, Spawns(n), ls);
        NeverInverts(Spawns(n), ls, c);
      }
    }
  }

  lemma NeverInverts(a: seq<Label>, ls: seq<Label>, c: ClientId)
    requires Run(Start, a + ls) == Run(Run(Start, a), ls) && |Run(Start, a + ls).workers.Keys| <= 1
    ensures !Inverts(Run(Start, a), ls, c)
  {
    hide Step, Run, Inverted;
    if c in Run(Start, a + ls).clients { OneWorkerInOrder(a + ls, c); }
  }

  lemma {:induction false} TwoIdle(n: nat)
    requires n >= 2
    ensures 0 in Idle(n) && 1 in Idle(n) && Idle(n)[0].None? && Idle(n)[1].None?
  {
    if n > 2 { TwoIdle(n - 1); } else { assert Idle(1) == map[][0 := None]; }
  }
}
