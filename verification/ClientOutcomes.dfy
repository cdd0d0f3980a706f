/** What can become of a client: in which order its jobs are taken, when it is reported as
    disconnected, and when `Client.connect` can follow `Client.disconnect`. */
module ClientOutcomes {

  import opened ClientProtocol

  // ---------- runs ----------

  lemma {:induction false} RunAppend(s: State, a: seq<Label>, b: seq<Label>)
    ensures Run(s, a + b) == Run(Run(s, a), b)
  {
    if b == [] {
      assert a + b == a;
    } else {
      RunAppend(s, a, b[..|b| - 1]);
      assert (a + b)[..|a + b| - 1] == a + b[..|b| - 1];
    }
  }

  lemma RunOne(s: State, l: Label)
    ensures Run(s, [l]) == Step(s, l)
  {
    assert [l][..0] == [];
  }

  lemma RunTwo(s: State, a: Label, b: Label)
    ensures Run(s, [a, b]) == Step(Step(s, a), b)
  {
    RunOne(s, a);
    assert [a, b][..1] == [a];
  }

  lemma RunThree(s: State, a: Label, b: Label, c: Label)
    ensures Run(s, [a, b, c]) == Step(Step(Step(s, a), b), c)
  {
    RunTwo(s, a, b);
    assert [a, b, c][..2] == [a, b];
  }

  // ---------- the order of the jobs ----------

  /** The job that a step brings into being. */
  function AddedBy(s: State, l: Label): seq<JobId> {
    if (l.EnqueueConnect? || l.Read? || l.Kick? || l.Error? || l.Custom?) && l.j !in s.heap && l.j in Step(s, l).heap
    then [l.j] else []
  }

  /** The job that a worker begins with in a step. */
  function TakenBy(s: State, l: Label): seq<JobId> {
    if l.Take? && l.w in s.workers && s.workers[l.w].None? then
      var s' := Step(s, l);
      if l.w in s'.workers && s'.workers[l.w].Some? then [s'.workers[l.w].value] else []
    else []
  }

  function AddedIn(s: State, ls: seq<Label>): seq<JobId> {
    if ls == [] then []
    else AddedIn(s, ls[..|ls| - 1]) + AddedBy(Run(s, ls[..|ls| - 1]), ls[|ls| - 1])
  }

  function TakenIn(s: State, ls: seq<Label>): seq<JobId> {
    if ls == [] then []
    else TakenIn(s, ls[..|ls| - 1]) + TakenBy(Run(s, ls[..|ls| - 1]), ls[|ls| - 1])
  }

  lemma QueueStep(s: State, l: Label)
    requires Placed(s)
    ensures TakenBy(s, l) + Step(s, l).queue == s.queue + AddedBy(s, l)
  {
    hide CheckRegion, AdvanceRegion, Placed;
    if l.Check? && Holds(s, l.w) && Addressed(s, s.workers[l.w].value) {
      CheckQueue(s, l.w, s.workers[l.w].value);
    } else if l.Advance? && Holds(s, l.w) && !s.heap[s.workers[l.w].value].kind.CustomJob? &&
              Addressed(s, s.workers[l.w].value) {
      AdvanceQueue(s, l.w, s.workers[l.w].value);
    } else if l.Take? {
      TakeQueue(s, l.w);
    }
  }

  lemma CheckQueue(s: State, w: WorkerId, j: JobId)
    requires j in s.heap && Addressed(s, j)
    ensures CheckRegion(s, w, j).queue == s.queue
  {
  }

  lemma AdvanceQueue(s: State, w: WorkerId, j: JobId)
    requires j in s.heap && !s.heap[j].kind.CustomJob? && Addressed(s, j)
    ensures AdvanceRegion(s, w, j).queue == s.queue
  {
  }

  lemma TakeQueue(s: State, w: WorkerId)
    requires Placed(s)
    ensures TakenBy(s, Take(w)) + Step(s, Take(w)).queue == s.queue
  {
    if s.queue != [] { assert s.queue == [s.queue[0]] + s.queue[1..]; }
  }

  lemma Regroup(taken: seq<JobId>, x: seq<JobId>, queue: seq<JobId>, queue': seq<JobId>, y: seq<JobId>)
    requires x + queue' == queue + y
    ensures (taken + x) + queue' == (taken + queue) + y
  {
    assert (taken + x) + queue' == taken + (x + queue');
    assert (taken + queue) + y == taken + (queue + y);
  }

  /** In every run the jobs are taken in the order in which they were added, each once and none left
      out: what was taken and then what waits is what was added. */
  lemma {:induction false} FirstInFirstOut(ls: seq<Label>)
    ensures TakenIn(Start, ls) + Run(Start, ls).queue == AddedIn(Start, ls)
  {
    hide Step, Inv, AddedBy, TakenBy;
    if ls != [] {
      var before, l := ls[..|ls| - 1], ls[|ls| - 1];
      var s := Run(Start, before);
      FirstInFirstOut(before);
      RunPlaced(before);
      QueueStep(s, l);
      Regroup(TakenIn(Start, before), TakenBy(s, l), s.queue, Step(s, l).queue, AddedBy(s, l));
    }
  }

  lemma RunPlaced(ls: seq<Label>)
    ensures Placed(Run(Start, ls))
  {
    RunKeeps(ls);
  }

  // ---------- no job is lost ----------

  ghost predicate Held(s: State, j: JobId) {
    exists w :: w in s.workers && s.workers[w] == Some(j)
  }

  /** A job that is not in the queue is in the hands of a worker. */
  ghost predicate Attended(s: State) {
    forall j :: j in s.heap ==> if s.heap[j].stage == Queued then j in s.queue else Held(s, j)
  }

  lemma AttendedAdd(s: State, s': State, j: JobId, kind: Kind)
    requires Attended(s) && j !in s.heap
    requires s'.heap == s.heap[j := Job(kind, Queued)] && s'.queue == s.queue + [j] && s'.workers == s.workers
    ensures Attended(s')
  {
    assert j == s'.queue[|s.queue|];
    forall i | i in s'.heap && i != j
      ensures if s'.heap[i].stage == Queued then i in s'.queue else Held(s', i)
    {
      assert i in s.heap;
      if s.heap[i].stage != Queued { assert Held(s, i); }
    }
  }

  /** A worker that holds the job goes on with it. */
  lemma AttendedStage(s: State, s': State, j: JobId, stage: Stage)
    requires Attended(s) && Placed(s) && Held(s, j) && stage != Queued
    requires j in s.heap && s'.heap == s.heap[j := s.heap[j].(stage := stage)]
    requires s'.queue == s.queue && s'.workers == s.workers
    ensures Attended(s')
  {
    forall i | i in s'.heap
      ensures if s'.heap[i].stage == Queued then i in s'.queue else Held(s', i)
    {
      assert i in s.heap;
      assert Held(s, i) ==> Held(s', i);
    }
  }

  lemma AttendedFinish(s: State, s': State, w: WorkerId, j: JobId)
    requires Attended(s) && w in s.workers && s.workers[w] == Some(j)
    requires s'.heap == s.heap - {j} && s'.queue == s.queue && s'.workers == s.workers[w := None]
    ensures Attended(s')
  {
    forall i | i in s'.heap
      ensures if s'.heap[i].stage == Queued then i in s'.queue else Held(s', i)
    {
      assert i in s.heap && i != j && s'.heap[i] == s.heap[i];
      if s.heap[i].stage != Queued {
        var v :| v in s.workers && s.workers[v] == Some(i);
        assert v in s'.workers && s'.workers[v] == Some(i);
      }
    }
  }

  lemma AttendedTake(s: State, w: WorkerId)
    requires Attended(s)
    ensures Attended(Step(s, Take(w)))
  {
    var s' := Step(s, Take(w));
    if s' != s {
      var j := s.queue[0];
      forall i | i in s'.heap
        ensures if s'.heap[i].stage == Queued then i in s'.queue else Held(s', i)
      {
        if i == j {
          assert s'.workers[w] == Some(j);
        } else if s.heap[i].stage == Queued {
          assert s.queue == [j] + s'.queue && i in s.queue;
        } else {
          var v :| v in s.workers && s.workers[v] == Some(i);
          assert s'.workers[v] == Some(i);
        }
      }
    }
  }

  lemma AttendedSpawn(s: State, w: WorkerId)
    requires Attended(s)
    ensures Attended(Step(s, Spawn(w)))
  {
    var s' := Step(s, Spawn(w));
    forall i | i in s'.heap
      ensures if s'.heap[i].stage == Queued then i in s'.queue else Held(s', i)
    {
      if s.heap[i].stage != Queued {
        var v :| v in s.workers && s.workers[v] == Some(i);
        assert s'.workers[v] == Some(i);
      }
    }
  }

  /** The worker's regions end its job or take it a stage further, if they do anything to it. */
  ghost predicate GoesOn(s: State, s': State, w: WorkerId, j: JobId)
    requires j in s.heap
  {
    && s'.queue == s.queue
    && ((s'.heap == s.heap - {j} && s'.workers == s.workers[w := None])
        || (s'.workers == s.workers && s'.heap == s.heap)
        || (s'.workers == s.workers &&
            exists stage :: stage != Queued && s'.heap == s.heap[j := s.heap[j].(stage := stage)]))
  }

  lemma CheckGoesOn(s: State, w: WorkerId, j: JobId)
    requires j in s.heap && Addressed(s, j)
    ensures GoesOn(s, CheckRegion(s, w, j), w, j)
  {
    assert Checked != Queued;
  }

  lemma AdvanceGoesOn(s: State, w: WorkerId, j: JobId)
    requires j in s.heap && !s.heap[j].kind.CustomJob? && Addressed(s, j)
    ensures GoesOn(s, AdvanceRegion(s, w, j), w, j)
  {
    assert Sent != Queued && Done != Queued;
  }

  lemma GoesOnAttended(s: State, s': State, w: WorkerId, j: JobId)
    requires Attended(s) && Placed(s) && w in s.workers && s.workers[w] == Some(j) && j in s.heap
    requires GoesOn(s, s', w, j)
    ensures Attended(s')
  {
    hide Placed;
    if s'.heap == s.heap - {j} && s'.workers == s.workers[w := None] {
      AttendedFinish(s, s', w, j);
    } else if s'.heap != s.heap {
      var stage :| stage != Queued && s'.heap == s.heap[j := s.heap[j].(stage := stage)];
      AttendedStage(s, s', j, stage);
    } else {
      assert forall i :: Held(s, i) ==> Held(s', i);
    }
  }

  lemma StepAttended(s: State, l: Label)
    requires Attended(s) && Placed(s)
    ensures Attended(Step(s, l))
  {
    hide Attended, Placed, CheckRegion, AdvanceRegion, GoesOn;
    var s' := Step(s, l);
    match l
    case Register(c) => SameAttended(s, s');
    case EnqueueConnect(c, j) =>
      if c in s.accepting && j !in s.heap { AttendedAdd(s, s', j, ConnectJob(c)); }
    case Read(c, input, j) =>
      if s' != s {
        if input.Parsed? { AttendedAdd(s, s', j, ProcessJob(c, input.packet)); } else { AttendedAdd(s, s', j, DisconnectJob(c)); }
      }
    case Kick(c, j) => if s' != s { AttendedAdd(s, s', j, DisconnectJob(c)); }
    case Error(c, j) => if c in s.clients && j !in s.heap { AttendedAdd(s, s', j, DisconnectJob(c)); }
    case Custom(j) => if j !in s.heap { AttendedAdd(s, s', j, CustomJob); }
    case Spawn(w) => AttendedSpawn(s, w);
    case Take(w) => AttendedTake(s, w);
    case Check(w) =>
      if Holds(s, w) && s.heap[s.workers[w].value].stage == Taken && Addressed(s, s.workers[w].value) {
        CheckGoesOn(s, w, s.workers[w].value);
        GoesOnAttended(s, s', w, s.workers[w].value);
      }
    case Advance(w) =>
      if Holds(s, w) && !s.heap[s.workers[w].value].kind.CustomJob? && Addressed(s, s.workers[w].value) {
        AdvanceGoesOn(s, w, s.workers[w].value);
        GoesOnAttended(s, s', w, s.workers[w].value);
      }
  }

  lemma SameAttended(s: State, s': State)
    requires Attended(s) && s'.heap == s.heap && s'.queue == s.queue && s'.workers == s.workers
    ensures Attended(s')
  {
    assert forall i :: Held(s, i) ==> Held(s', i);
  }

  /** What holds after every run. */
  ghost predicate Sound(s: State) {
    Inv(s) && Attended(s)
  }

  lemma StepSound(s: State, l: Label)
    requires Sound(s)
    ensures Sound(Step(s, l))
  {
    hide JobOk, ClientOk, Step, Attended;
    StepKeeps(s, l);
    StepAttended(s, l);
  }

  lemma {:induction false} RunSound(s: State, ls: seq<Label>)
    requires Sound(s)
    ensures Sound(Run(s, ls))
  {
    hide Sound;
    if ls != [] {
      RunSound(s, ls[..|ls| - 1]);
      StepSound(Run(s, ls[..|ls| - 1]), ls[|ls| - 1]);
    }
  }

  /** In every run each job waits in the queue or is in the hands of a worker. */
  lemma NoJobLost(ls: seq<Label>)
    ensures Sound(Run(Start, ls))
  {
    RunSound(Start, ls);
  }

  // ---------- names not in use, and holders ----------

  lemma {:induction false} Bounded(used: set<nat>) returns (n: nat)
    ensures forall x :: x in used ==> x < n
  {
    if used == {} {
      n := 0;
    } else {
      var x :| x in used;
      var m := Bounded(used - {x});
      n := if x < m then m else x + 1;
      assert forall y :: y in used ==> y == x || y in used - {x};
    }
  }

  lemma HolderOf(s: State, j: JobId) returns (w: WorkerId)
    requires Attended(s) && j in s.heap && s.heap[j].stage != Queued
    ensures Holds(s, w) && s.workers[w] == Some(j)
  {
    assert Held(s, j);
    w :| w in s.workers && s.workers[w] == Some(j);
  }

  // ---------- the connect event after the disconnect event ----------

  /** `Client.connect` was dispatched after `Client.disconnect`. */
  predicate Inverted(es: seq<Event>) {
    exists i, j :: 0 <= i < j < |es| && es[i].Disconnected? && es[j].Connected?
  }

  /** The client's connect job is past its status check and has not dispatched its event. */
  predicate CheckedConnect(s: State, c: ClientId) {
    exists j :: j in s.heap && s.heap[j] == Job(ConnectJob(c), Checked)
  }

  /** The client is disconnecting, and its connect event can no longer come after that. */
  predicate Calm(s: State, c: ClientId) {
    c in s.clients && s.clients[c].status == Disconnect && !CheckedConnect(s, c) && !Inverted(s.clients[c].events)
  }

  lemma InvertedAppend(es: seq<Event>, e: Event)
    ensures Inverted(es + [e]) <==> Inverted(es) || (e.Connected? && Event.Disconnected in es)
  {
    var all := es + [e];
    if Inverted(es) {
      var i, j :| 0 <= i < j < |es| && es[i].Disconnected? && es[j].Connected?;
      assert all[i] == es[i] && all[j] == es[j];
    }
    if e.Connected? && Event.Disconnected in es {
      var i :| 0 <= i < |es| && es[i] == Event.Disconnected;
      assert all[i].Disconnected? && all[|es|].Connected?;
    }
  }

  /** What one step does to the events of a client: nothing, or it appends one; the connect event only
      for a connect job past its check. */
  lemma EventsStep(s: State, l: Label, c: ClientId)
    requires c in s.clients
    ensures c in Step(s, l).clients
    ensures var k, k' := s.clients[c], Step(s, l).clients[c];
            k'.events == k.events ||
            exists e :: k'.events == k.events + [e] && (e.Connected? ==> CheckedConnect(s, c))
  {
    hide CheckRegion, AdvanceRegion, CheckedConnect;
    if l.Check? && Holds(s, l.w) && Addressed(s, s.workers[l.w].value) {
      CheckEvents(s, l.w, s.workers[l.w].value, c);
    } else if l.Advance? && Holds(s, l.w) && !s.heap[s.workers[l.w].value].kind.CustomJob? &&
              Addressed(s, s.workers[l.w].value) {
      AdvanceEvents(s, l.w, s.workers[l.w].value, c);
    } else if Step(s, l).clients[c].events != s.clients[c].events {
      assert Step(s, l).clients[c].events == s.clients[c].events + [Kicked];
    }
  }

  lemma CheckEvents(s: State, w: WorkerId, j: JobId, c: ClientId)
    requires c in s.clients && j in s.heap && Addressed(s, j)
    ensures c in CheckRegion(s, w, j).clients && CheckRegion(s, w, j).clients[c].events == s.clients[c].events
  {
  }

  lemma AdvanceEvents(s: State, w: WorkerId, j: JobId, c: ClientId)
    requires c in s.clients && j in s.heap && !s.heap[j].kind.CustomJob? && Addressed(s, j)
    ensures c in AdvanceRegion(s, w, j).clients
    ensures var k, k' := s.clients[c], AdvanceRegion(s, w, j).clients[c];
            k'.events == k.events ||
            exists e :: k'.events == k.events + [e] && (e.Connected? ==> CheckedConnect(s, c))
  {
    var k, k' := s.clients[c], AdvanceRegion(s, w, j).clients[c];
    if k'.events != k.events {
      var e := k'.events[|k.events|];
      assert k'.events == k.events + [e];
      if e.Connected? { assert s.heap[j] == Job(ConnectJob(c), Checked); }
    }
  }

  /** A connect job passes its check only while its client is not disconnecting. */
  lemma CheckedConnectStep(s: State, l: Label, c: ClientId)
    requires c in s.clients && CheckedConnect(Step(s, l), c)
    ensures CheckedConnect(s, c) || s.clients[c].status != Disconnect
  {
    var s' := Step(s, l);
    var j :| j in s'.heap && s'.heap[j] == Job(ConnectJob(c), Checked);
    assert j in s.heap ==> s.heap[j] == s'.heap[j] || s.clients[c].status != Disconnect;
  }

  lemma CalmStep(s: State, l: Label, c: ClientId)
    requires Calm(s, c)
    ensures Calm(Step(s, l), c)
  {
    hide Step, CheckedConnect, Inverted;
    HistoryGrows(s, l, c);
    EventsStep(s, l, c);
    var k, k' := s.clients[c], Step(s, l).clients[c];
    if k'.events != k.events {
      var e :| k'.events == k.events + [e] && (e.Connected? ==> CheckedConnect(s, c));
      InvertedAppend(k.events, e);
    }
    if CheckedConnect(Step(s, l), c) { CheckedConnectStep(s, l, c); }
  }

  /** In this step the client turns to Disconnect while its connect job is past the check. */
  predicate TurnsLate(s: State, l: Label, c: ClientId) {
    && c in s.clients && s.clients[c].status != Disconnect && CheckedConnect(s, c)
    && c in Step(s, l).clients && Step(s, l).clients[c].status == Disconnect
  }

  lemma NoDisconnectNotInverted(es: seq<Event>)
    requires Event.Disconnected !in es
    ensures !Inverted(es)
  {
  }

  lemma TurningStep(s: State, l: Label, c: ClientId)
    requires Inv(s) && Inv(Step(s, l)) && c in s.clients && s.clients[c].status != Disconnect && !TurnsLate(s, l, c)
    requires c in Step(s, l).clients && Step(s, l).clients[c].status == Disconnect
    ensures Calm(Step(s, l), c)
  {
    TurningEvents(s, l, c);
    if CheckedConnect(Step(s, l), c) { TurningConnect(s, l, c); }
  }

  lemma TurningEvents(s: State, l: Label, c: ClientId)
    requires Inv(s) && c in s.clients && s.clients[c].status != Disconnect
    requires c in Step(s, l).clients && Step(s, l).clients[c].status == Disconnect
    ensures !Inverted(Step(s, l).clients[c].events)
  {
    hide Step;
    assert ClientOk(s, c);
    var k, k' := s.clients[c], Step(s, l).clients[c];
    NoDisconnectNotInverted(k.events);
    EventsStep(s, l, c);
    if k'.events != k.events {
      var e :| k'.events == k.events + [e] && (e.Connected? ==> CheckedConnect(s, c));
      InvertedAppend(k.events, e);
    }
  }

  lemma TurningConnect(s: State, l: Label, c: ClientId)
    requires c in s.clients && s.clients[c].status != Disconnect && CheckedConnect(Step(s, l), c)
    requires c in Step(s, l).clients && Step(s, l).clients[c].status == Disconnect
    ensures CheckedConnect(s, c)
  {
    var s' := Step(s, l);
    var j :| j in s'.heap && s'.heap[j] == Job(ConnectJob(c), Checked);
    assert j in s.heap && s.heap[j] == Job(ConnectJob(c), Checked);
  }

  lemma TurnedBefore(s: State, l: Label, c: ClientId)
    requires c in Step(s, l).clients && Step(s, l).clients[c].status == Disconnect
    ensures c in s.clients
  {
  }

  lemma {:induction false} CalmUnlessLate(ls: seq<Label>, c: ClientId)
    requires c in Run(Start, ls).clients && Run(Start, ls).clients[c].status == Disconnect
    ensures Calm(Run(Start, ls), c) || exists n :: 0 <= n < |ls| && TurnsLate(Run(Start, ls[..n]), ls[n], c)
  {
    hide Step, Inv, Calm, TurnsLate;
    var before, l := ls[..|ls| - 1], ls[|ls| - 1];
    var s := Run(Start, before);
    RunKeeps(before);
    RunKeeps(ls);
    TurnedBefore(s, l, c);
    if s.clients[c].status != Disconnect {
      if !TurnsLate(s, l, c) { TurningStep(s, l, c); }
    } else if Calm(s, c) {
      CalmStep(s, l, c);
    } else {
      CalmUnlessLate(before, c);
      var n :| 0 <= n < |before| && TurnsLate(Run(Start, before[..n]), before[n], c);
      assert before[..n] == ls[..n];
    }
  }

  /** When `Client.connect` follows `Client.disconnect` in a run, the connect job was past its check,
      its event not yet dispatched, in the step that turned the client to Disconnect. */
  lemma ConnectFollowsOnlyLate(ls: seq<Label>, c: ClientId)
    requires c in Run(Start, ls).clients && Inverted(Run(Start, ls).clients[c].events)
    ensures exists n :: 0 <= n < |ls| && TurnsLate(Run(Start, ls[..n]), ls[n], c)
  {
    RunKeeps(ls);
    assert ClientOk(Run(Start, ls), c);
    CalmUnlessLate(ls, c);
  }

  predicate Inverts(s: State, ls: seq<Label>, c: ClientId) {
    c in Run(s, ls).clients && Inverted(Run(s, ls).clients[c].events)
  }

  lemma Greets(s: State, w: WorkerId, j: JobId, c: ClientId)
    requires Holds(s, w) && s.workers[w] == Some(j) && s.heap[j] == Job(ConnectJob(c), Checked) && c in s.clients
    ensures c in Step(s, Advance(w)).clients
    ensures Step(s, Advance(w)).clients[c].events == s.clients[c].events + [Connected]
  {
  }

  // ---------- the report of a disconnect ----------

  /** Some worker is past the wait for the client's jobs. */
  predicate PastTheWait(s: State, c: ClientId) {
    exists j :: j in s.heap && s.heap[j] == Job(DisconnectJob(c), Sent)
  }

  predicate Reported(es: seq<Event>) {
    Event.Disconnected in es
  }

  /** `jobs` has wrapped around, and nobody is past the wait. */
  predicate Stuck(s: State, c: ClientId) {
    c in s.clients && s.clients[c].dropped && !PastTheWait(s, c) && !Reported(s.clients[c].events)
  }

  lemma StuckAdvance(s: State, w: WorkerId, j: JobId, c: ClientId)
    requires Stuck(s, c) && s.clients[c].jobs == 255
    requires j in s.heap && !s.heap[j].kind.CustomJob? && Addressed(s, j)
    ensures var s' := AdvanceRegion(s, w, j);
            c in s'.clients && !PastTheWait(s', c) && !Reported(s'.clients[c].events)
  {
    assert s.heap[j] != Job(DisconnectJob(c), Sent);
    var s' := AdvanceRegion(s, w, j);
    forall i | i in s'.heap
      ensures s'.heap[i] != Job(DisconnectJob(c), Sent)
    {
      assert s.heap[i] != Job(DisconnectJob(c), Sent);
    }
  }

  lemma StuckOther(s: State, l: Label, c: ClientId)
    requires Stuck(s, c) && !l.Advance?
    ensures var s' := Step(s, l); c in s'.clients && !PastTheWait(s', c) && !Reported(s'.clients[c].events)
  {
    var s' := Step(s, l);
    forall i | i in s'.heap
      ensures s'.heap[i] != Job(DisconnectJob(c), Sent)
    {
      if i in s.heap { assert s.heap[i] != Job(DisconnectJob(c), Sent); }
    }
  }

  lemma StuckStep(s: State, l: Label, c: ClientId)
    requires Inv(s) && Stuck(s, c)
    ensures Stuck(Step(s, l), c)
  {
    hide AdvanceRegion, CheckRegion, PastTheWait, Reported;
    HistoryGrows(s, l, c);
    if !l.Advance? {
      StuckOther(s, l, c);
    } else if Holds(s, l.w) && !s.heap[s.workers[l.w].value].kind.CustomJob? &&
              Addressed(s, s.workers[l.w].value) {
      assert ClientOk(s, c);
      StuckAdvance(s, l.w, s.workers[l.w].value, c);
    }
  }

  /** When the connect job is dropped before a disconnect job is past its wait, the wait never ends, and
      `Client.disconnect` is never dispatched. */
  lemma {:induction false} StuckForever(s: State, ls: seq<Label>, c: ClientId)
    requires Inv(s) && Stuck(s, c)
    ensures Inv(Run(s, ls)) && Stuck(Run(s, ls), c)
  {
    hide Inv, Stuck, Step;
    if ls != [] {
      StuckForever(s, ls[..|ls| - 1], c);
      StepKeeps(Run(s, ls[..|ls| - 1]), ls[|ls| - 1]);
      StuckStep(Run(s, ls[..|ls| - 1]), ls[|ls| - 1], c);
    }
  }

  /** The step in which a worker meets the client's connect job, taken and not yet checked, after the
      client turned to Disconnect. */
  predicate DropsConnect(s: State, l: Label, c: ClientId) {
    && l.Check? && Holds(s, l.w) && s.heap[s.workers[l.w].value] == Job(ConnectJob(c), Taken)
    && c in s.clients && s.clients[c].status == Disconnect
  }

  predicate Dropped(s: State, c: ClientId) {
    c in s.clients && s.clients[c].dropped
  }

  lemma DropStep(s: State, l: Label, c: ClientId)
    ensures Dropped(Step(s, l), c) <==> Dropped(s, c) || DropsConnect(s, l, c)
  {
    if c in s.clients { HistoryGrows(s, l, c); }
  }

  ghost predicate SomeDrop(ls: seq<Label>, c: ClientId) {
    exists n :: 0 <= n < |ls| && DropsConnect(Run(Start, ls[..n]), ls[n], c)
  }

  lemma SomeDropStep(ls: seq<Label>, l: Label, c: ClientId)
    ensures SomeDrop(ls + [l], c) <==> SomeDrop(ls, c) || DropsConnect(Run(Start, ls), l, c)
  {
    hide DropsConnect, Run;
    var all := ls + [l];
    assert all[..|ls|] == ls && all[|ls|] == l;
    assert forall n :: 0 <= n < |ls| ==> all[..n] == ls[..n] && all[n] == ls[n];
  }

  lemma {:induction false} DroppedBySome(ls: seq<Label>, c: ClientId)
    ensures Dropped(Run(Start, ls), c) <==> SomeDrop(ls, c)
  {
    hide Step, DropsConnect;
    if ls != [] {
      hide SomeDrop, Dropped;
      var before, l := ls[..|ls| - 1], ls[|ls| - 1];
      assert ls == before + [l];
      DroppedBySome(before, c);
      SomeDropStep(before, l, c);
      DropStep(Run(Start, before), l, c);
    }
  }

  /** `jobs` counts the unfinished process jobs unless it is 255, and it is 255 exactly when some worker
      has checked the client's connect job after the client turned to Disconnect. */
  lemma DroppedIff(ls: seq<Label>, c: ClientId)
    requires c in Run(Start, ls).clients
    ensures var s := Run(Start, ls);
            && (s.clients[c].jobs == 255 || s.clients[c].jobs == |Outstanding(s, c)|)
            && (s.clients[c].jobs == 255 <==> s.clients[c].jobs != |Outstanding(s, c)|)
            && (s.clients[c].jobs == 255 <==> SomeDrop(ls, c))
  {
    hide Inv, SomeDrop;
    JobsCount(ls, c);
    AtMostOneProcessJob(ls, c);
    DroppedBySome(ls, c);
  }

  function Rank(stage: Stage): nat {
    match stage
    case Queued => 4
    case Taken => 3
    case Checked => 2
    case Sent => 1
    case Done => 0
  }

  lemma OnlyOne(s: State, j: JobId, c: ClientId)
    requires Inv(s) && c in s.clients && j in s.heap && s.heap[j].kind.ProcessJob? && s.heap[j].kind.client == c
    ensures Outstanding(s, c) == {j}
  {
    assert ClientOk(s, c) && j in Outstanding(s, c);
    Singleton(Outstanding(s, c), j);
  }

  predicate Reports(s: State, ls: seq<Label>, c: ClientId) {
    c in Run(s, ls).clients && Reported(Run(s, ls).clients[c].events)
  }

  lemma SaysGoodbye(s: State, w: WorkerId, j: JobId, c: ClientId)
    requires Holds(s, w) && s.workers[w] == Some(j) && s.heap[j] == Job(DisconnectJob(c), Sent) && c in s.clients
    ensures c in Step(s, Advance(w)).clients && Reported(Step(s, Advance(w)).clients[c].events)
  {
    assert Step(s, Advance(w)).clients[c].events == s.clients[c].events + [Event.Disconnected];
  }

  // ---------- a run ----------

  /** A client accepted, its connect job queued; it breaks off before a worker has checked that job. */
  lemma ConnectDropped() returns (ls: seq<Label>)
    ensures 0 in Run(Start, ls).clients && Run(Start, ls).clients[0].jobs == 255
    ensures forall more :: !Reports(Run(Start, ls), more, 0)
  {
    var accept, leave := [Register(0), EnqueueConnect(0, 0), Error(0, 1)], [Spawn(0), Take(0), Check(0)];
    ls := accept + leave;
    RunThree(Start, Register(0), EnqueueConnect(0, 0), Error(0, 1));
    Breaks();
    RunThree(BrokenOff(), Spawn(0), Take(0), Check(0));
    RunAppend(Start, accept, leave);
    Leaves();
    RunKeeps(ls);
    hide Step, Run, Inv;
    var s := Run(Start, ls);
    assert Stuck(s, 0);
    forall more
      ensures !Reports(s, more, 0)
    {
      StuckForever(s, more, 0);
    }
  }

  /** The connect job and the disconnect job wait. */
  function BrokenOff(): State {
    State(map[0 := Client(Disconnect, 0, [], [], false)], {},
          map[0 := Job(ConnectJob(0), Queued), 1 := Job(DisconnectJob(0), Queued)], [0, 1], map[])
  }

  lemma Breaks()
    ensures Step(Step(Step(Start, Register(0)), EnqueueConnect(0, 0)), Error(0, 1)) == BrokenOff()
  {
    var s := Step(Step(Start, Register(0)), EnqueueConnect(0, 0));
    assert s == State(map[0 := FreshClient], {}, map[0 := Job(ConnectJob(0), Queued)], [0], map[]);
  }

  lemma Leaves()
    ensures var s := Step(Step(Step(BrokenOff(), Spawn(0)), Take(0)), Check(0));
            && 0 in s.clients && s.clients[0].jobs == 255 && s.clients[0].dropped && s.clients[0].events == []
            && s.heap == map[1 := Job(DisconnectJob(0), Queued)]
  {
    var s := Step(Step(BrokenOff(), Spawn(0)), Take(0));
    assert s.heap == map[0 := Job(ConnectJob(0), Taken), 1 := Job(DisconnectJob(0), Queued)];
    assert s.queue == [1] && s.clients == BrokenOff().clients;
  }
}
