/** How often the events of a client are dispatched, over every run. */
module ClientCounts {

  import opened ClientProtocol
  import opened ClientOutcomes

  function One(b: bool): nat {
    if b then 1 else 0
  }

  function Times(es: seq<Event>, e: Event): nat {
    multiset(es)[e]
  }

  lemma TimesAppend(es: seq<Event>, x: Event)
    ensures forall e :: Times(es + [x], e) == Times(es, e) + One(e == x)
  {
    assert multiset(es + [x]) == multiset(es) + multiset{x};
  }

  // ---------- the connect event ----------

  /** A connect job of the client waits or is in hand, and its event is still to come. */
  predicate Greeting(s: State, c: ClientId) {
    exists j :: j in s.heap && s.heap[j].kind == ConnectJob(c) && s.heap[j].stage in {Queued, Taken, Checked}
  }

  /** The client is being accepted, or its connect event is to come, or it was dispatched, once, or the
      connect job was dropped: one of these and no more. */
  predicate GreetedOnce(s: State, c: ClientId)
    requires c in s.clients
  {
    One(c in s.accepting) + One(Greeting(s, c)) + Times(s.clients[c].events, Connected) + One(s.clients[c].dropped) == 1
  }

  lemma NoConnectJob(s: State, c: ClientId)
    requires Inv(s) && (c !in s.clients || c in s.accepting)
    ensures forall j :: j in s.heap ==> s.heap[j].kind != ConnectJob(c)
  {
    if c in s.clients {
      assert ClientOk(s, c) && Connecting(s, c) == {};
      assert forall j :: j in s.heap ==> j !in Connecting(s, c);
    } else {
      assert forall j :: j in s.heap ==> JobOk(s, j);
    }
  }

  lemma OneConnectJob(s: State, j: JobId, c: ClientId)
    requires Inv(s) && c in s.clients && j in s.heap && s.heap[j].kind == ConnectJob(c)
    ensures forall i :: i in s.heap && i != j ==> s.heap[i].kind != ConnectJob(c)
    ensures c !in s.accepting
  {
    assert ClientOk(s, c) && j in Connecting(s, c);
    Singleton(Connecting(s, c), j);
    forall i | i in s.heap && i != j
      ensures s.heap[i].kind != ConnectJob(c)
    {
      assert i !in Connecting(s, c);
    }
  }

  /** What the client looks like to those who count: its events, its connect job, and its acceptance. */
  ghost predicate Counts(s: State, t: State, c: ClientId) {
    && c in s.clients && c in t.clients && (c in t.accepting <==> c in s.accepting)
    && (Greeting(t, c) <==> Greeting(s, c)) && t.clients[c].dropped == s.clients[c].dropped
    && (t.clients[c].events == s.clients[c].events ||
        exists e :: e != Connected && t.clients[c].events == s.clients[c].events + [e])
  }

  lemma CountsKeep(s: State, t: State, c: ClientId)
    requires Counts(s, t, c) && GreetedOnce(s, c)
    ensures GreetedOnce(t, c)
  {
    hide Times, Greeting;
    if t.clients[c].events != s.clients[c].events {
      var e :| e != Connected && t.clients[c].events == s.clients[c].events + [e];
      TimesAppend(s.clients[c].events, e);
    }
  }

  /** The step dispatches the connect event. */
  predicate Greets(s: State, l: Label, c: ClientId) {
    l.Advance? && Holds(s, l.w) && s.heap[s.workers[l.w].value] == Job(ConnectJob(c), Checked) && c in s.clients
  }

  lemma GreetStep(s: State, w: WorkerId, c: ClientId)
    requires Inv(s) && Greets(s, Advance(w), c) && GreetedOnce(s, c)
    ensures c in Step(s, Advance(w)).clients && GreetedOnce(Step(s, Advance(w)), c)
  {
    var j := s.workers[w].value;
    OneConnectJob(s, j, c);
    hide Inv, Times;
    assert Greeting(s, c);
    GreetsIt(s, w, c);
    hide Step;
    TimesAppend(s.clients[c].events, Connected);
    assert !Greeting(Step(s, Advance(w)), c);
  }

  lemma GreetsIt(s: State, w: WorkerId, c: ClientId)
    requires Greets(s, Advance(w), c)
    ensures var t := Step(s, Advance(w));
      && t.heap == s.heap[s.workers[w].value := Job(ConnectJob(c), Sent)] && t.accepting == s.accepting && c in t.clients
      && t.clients[c].events == s.clients[c].events + [Connected] && t.clients[c].dropped == s.clients[c].dropped
  {
  }

  lemma DropConnect(s: State, w: WorkerId, c: ClientId)
    requires Inv(s) && DropsConnect(s, Check(w), c) && GreetedOnce(s, c)
    ensures c in Step(s, Check(w)).clients && GreetedOnce(Step(s, Check(w)), c)
  {
    var j := s.workers[w].value;
    OneConnectJob(s, j, c);
    hide Inv, Times;
    assert Greeting(s, c);
    DropsIt(s, w, c);
    hide Step;
    assert !Greeting(Step(s, Check(w)), c);
  }

  lemma DropsIt(s: State, w: WorkerId, c: ClientId)
    requires DropsConnect(s, Check(w), c)
    ensures var t := Step(s, Check(w));
      && t.heap == s.heap - {s.workers[w].value} && t.accepting == s.accepting && c in t.clients
      && t.clients[c].events == s.clients[c].events && t.clients[c].dropped
  {
  }

  lemma EnqueueStep(s: State, c: ClientId, j: JobId)
    requires Inv(s) && c in s.accepting && j !in s.heap && c in s.clients && GreetedOnce(s, c)
    ensures c in Step(s, EnqueueConnect(c, j)).clients && GreetedOnce(Step(s, EnqueueConnect(c, j)), c)
  {
    NoConnectJob(s, c);
    hide Inv, Times;
    assert !Greeting(s, c);
    var t := Step(s, EnqueueConnect(c, j));
    assert t.heap[j] == Job(ConnectJob(c), Queued);
    assert Greeting(t, c);
  }

  lemma RegisterStep(s: State, c: ClientId)
    requires Inv(s) && c !in s.clients
    ensures c in Step(s, Register(c)).clients && GreetedOnce(Step(s, Register(c)), c)
  {
    NoConnectJob(s, c);
    hide Inv;
    assert !Greeting(Step(s, Register(c)), c);
  }

  /** Every other step leaves all that as it is. */
  lemma OtherStep(s: State, l: Label, c: ClientId)
    requires Inv(s) && c in s.clients && !DropsConnect(s, l, c)
    requires !Greets(s, l, c)
    requires l.EnqueueConnect? && l.c == c ==> c !in s.accepting || l.j in s.heap
    ensures Counts(s, Step(s, l), c)
  {
    HistoryGrows(s, l, c);
    DropStep(s, l, c);
    OtherEvents(s, l, c);
    OtherGreeting(s, l, c);
    hide Step, Inv, Greeting, Greets, DropsConnect;
  }

  lemma OtherEvents(s: State, l: Label, c: ClientId)
    requires c in s.clients && !Greets(s, l, c)
    requires l.EnqueueConnect? && l.c == c ==> c !in s.accepting || l.j in s.heap
    ensures c in Step(s, l).clients && (c in Step(s, l).accepting <==> c in s.accepting)
    ensures var es, es' := s.clients[c].events, Step(s, l).clients[c].events;
      es' == es || exists e :: e != Connected && es' == es + [e]
  {
    SameAccepting(s, l, c);
    if l.Check? || l.Advance? {
      WorkerSays(s, l, c);
    } else {
      OthersSay(s, l, c);
    }
    hide Step;
  }

  lemma SameAccepting(s: State, l: Label, c: ClientId)
    requires c in s.clients
    requires l.EnqueueConnect? && l.c == c ==> c !in s.accepting || l.j in s.heap
    ensures c in Step(s, l).accepting <==> c in s.accepting
  {
  }

  lemma OtherGreeting(s: State, l: Label, c: ClientId)
    requires Inv(s) && c in s.clients && !DropsConnect(s, l, c)
    requires !Greets(s, l, c)
    requires l.EnqueueConnect? && l.c == c ==> c !in s.accepting || l.j in s.heap
    ensures Greeting(Step(s, l), c) <==> Greeting(s, c)
  {
    assert Placed(s);
    hide Inv, Placed, Step;
    var t := Step(s, l);
    if Greeting(s, c) {
      var j :| j in s.heap && s.heap[j].kind == ConnectJob(c) && s.heap[j].stage in {Queued, Taken, Checked};
      GreetingJob(s, l, c, j);
    }
    if Greeting(t, c) {
      var j :| j in t.heap && t.heap[j].kind == ConnectJob(c) && t.heap[j].stage in {Queued, Taken, Checked};
      GreetingBack(s, l, c, j);
    }
  }

  lemma GreetingJob(s: State, l: Label, c: ClientId, j: JobId)
    requires c in s.clients && !DropsConnect(s, l, c) && !Greets(s, l, c)
    requires j in s.heap && s.heap[j].kind == ConnectJob(c) && s.heap[j].stage in {Queued, Taken, Checked}
    ensures var t := Step(s, l); j in t.heap && t.heap[j].kind == ConnectJob(c) && t.heap[j].stage in {Queued, Taken, Checked}
  {
    if l.Check? {
      CheckedOn(s, l.w, c, j);
    } else if l.Advance? {
      AdvancedOn(s, l.w, c, j);
    } else {
      StaysThere(s, l, c, j);
    }
    hide Step;
  }

  lemma CheckedOn(s: State, w: WorkerId, c: ClientId, j: JobId)
    requires c in s.clients && !DropsConnect(s, Check(w), c)
    requires j in s.heap && s.heap[j].kind == ConnectJob(c) && s.heap[j].stage in {Queued, Taken, Checked}
    ensures var t := Step(s, Check(w)); j in t.heap && t.heap[j].kind == ConnectJob(c) && t.heap[j].stage in {Queued, Taken, Checked}
  {
  }

  lemma AdvancedOn(s: State, w: WorkerId, c: ClientId, j: JobId)
    requires c in s.clients && !Greets(s, Advance(w), c)
    requires j in s.heap && s.heap[j].kind == ConnectJob(c) && s.heap[j].stage in {Queued, Taken, Checked}
    ensures var t := Step(s, Advance(w)); j in t.heap && t.heap[j] == s.heap[j]
  {
  }

  lemma StaysThere(s: State, l: Label, c: ClientId, j: JobId)
    requires c in s.clients && !l.Check? && !l.Advance?
    requires j in s.heap && s.heap[j].kind == ConnectJob(c) && s.heap[j].stage in {Queued, Taken, Checked}
    ensures var t := Step(s, l); j in t.heap && t.heap[j].kind == ConnectJob(c) && t.heap[j].stage in {Queued, Taken, Checked}
  {
  }

  lemma GreetingBack(s: State, l: Label, c: ClientId, j: JobId)
    requires Placed(s) && c in s.clients && (l.EnqueueConnect? && l.c == c ==> c !in s.accepting || l.j in s.heap)
    requires var t := Step(s, l); j in t.heap && t.heap[j].kind == ConnectJob(c) && t.heap[j].stage in {Queued, Taken, Checked}
    ensures j in s.heap && s.heap[j].kind == ConnectJob(c) && s.heap[j].stage in {Queued, Taken, Checked}
  {
    if l.Take? {
      TakenWasQueued(s, l.w, j);
    } else if l.Check? || l.Advance? {
      WorkedBack(s, l, j);
    } else {
      AddedBack(s, l, c, j);
    }
    hide Step, Placed;
  }

  lemma TakenWasQueued(s: State, w: WorkerId, j: JobId)
    requires Placed(s) && j in Step(s, Take(w)).heap
    ensures j in s.heap && s.heap[j].kind == Step(s, Take(w)).heap[j].kind
    ensures s.heap[j].stage == Queued || s.heap[j] == Step(s, Take(w)).heap[j]
  {
    assert s.queue != [] ==> s.heap[s.queue[0]].stage == Queued;
    hide Placed;
  }

  /** A worker takes no job back to an earlier stage. */
  lemma WorkedBack(s: State, l: Label, j: JobId)
    requires (l.Check? || l.Advance?) && j in Step(s, l).heap && Step(s, l).heap[j].stage in {Queued, Taken, Checked}
    ensures j in s.heap && s.heap[j].kind == Step(s, l).heap[j].kind && s.heap[j].stage in {Queued, Taken, Checked}
  {
  }

  lemma AddedBack(s: State, l: Label, c: ClientId, j: JobId)
    requires c in s.clients && (l.EnqueueConnect? && l.c == c ==> c !in s.accepting || l.j in s.heap)
    requires !l.Take? && !l.Check? && !l.Advance?
    requires var t := Step(s, l); j in t.heap && t.heap[j].kind == ConnectJob(c)
    ensures j in s.heap && s.heap[j] == Step(s, l).heap[j]
  {
  }

  lemma GreetedStep(s: State, l: Label, c: ClientId)
    requires Inv(s) && (c in s.clients ==> GreetedOnce(s, c)) && c in Step(s, l).clients
    ensures GreetedOnce(Step(s, l), c)
  {
    hide Step, Inv, GreetedOnce, Greets, DropsConnect;
    if c !in s.clients {
      OnlyRegister(s, l, c);
      RegisterStep(s, c);
    } else if Greets(s, l, c) {
      OnlyAdvances(s, l, c);
      GreetStep(s, l.w, c);
    } else if DropsConnect(s, l, c) {
      OnlyChecks(s, l, c);
      DropConnect(s, l.w, c);
    } else if l.EnqueueConnect? && l.c == c && c in s.accepting && l.j !in s.heap {
      EnqueueStep(s, c, l.j);
    } else {
      OtherStep(s, l, c);
      CountsKeep(s, Step(s, l), c);
    }
  }

  lemma OnlyRegister(s: State, l: Label, c: ClientId)
    requires c !in s.clients && c in Step(s, l).clients
    ensures l == Register(c)
  {
  }

  lemma OnlyAdvances(s: State, l: Label, c: ClientId)
    requires Greets(s, l, c)
    ensures l == Advance(l.w)
  {
  }

  lemma OnlyChecks(s: State, l: Label, c: ClientId)
    requires DropsConnect(s, l, c)
    ensures l == Check(l.w)
  {
  }

  /** In every run, a client is being accepted, or its connect event is still to come, or the event was
      dispatched, once, or the connect job was dropped; exactly one of these. */
  lemma {:induction false} ConnectedOnce(ls: seq<Label>, c: ClientId)
    requires c in Run(Start, ls).clients
    ensures GreetedOnce(Run(Start, ls), c)
  {
    hide Step, Inv, GreetedOnce;
    var before := ls[..|ls| - 1];
    RunKeeps(before);
    if c in Run(Start, before).clients { ConnectedOnce(before, c); }
    GreetedStep(Run(Start, before), ls[|ls| - 1], c);
  }

  // ---------- the kick and the disconnect event ----------

  /** In this step the client is kicked: on request, or for a malformed packet. */
  predicate Kicks(s: State, l: Label, c: ClientId) {
    && c in s.clients && s.clients[c].status != Disconnect
    && (l.Kick? || (l.Read? && l.input.Malformed? && s.clients[c].status == Idle))
    && l.c == c && l.j !in s.heap
  }

  /** In this step it is kicked, or its connection fails, for the first time or again. */
  predicate Breaks(s: State, l: Label, c: ClientId) {
    Kicks(s, l, c) || (c in s.clients && l.Error? && l.c == c && l.j !in s.heap)
  }

  function KickCount(ls: seq<Label>, c: ClientId): nat {
    if ls == [] then 0
    else KickCount(ls[..|ls| - 1], c) + One(Kicks(Run(Start, ls[..|ls| - 1]), ls[|ls| - 1], c))
  }

  function BreakCount(ls: seq<Label>, c: ClientId): nat {
    if ls == [] then 0
    else BreakCount(ls[..|ls| - 1], c) + One(Breaks(Run(Start, ls[..|ls| - 1]), ls[|ls| - 1], c))
  }

  /** The disconnect jobs of the client that wait or are in hand. */
  function Leaving(s: State, c: ClientId): set<JobId> {
    set j | j in s.heap && s.heap[j].kind == DisconnectJob(c)
  }

  /** A worker reports the client, and its job ends. */
  predicate Parts(s: State, l: Label, c: ClientId) {
    l.Advance? && Holds(s, l.w) && s.heap[s.workers[l.w].value] == Job(DisconnectJob(c), Sent) && c in s.clients
  }

  lemma KickedStep(s: State, l: Label, c: ClientId)
    requires c in s.clients
    ensures c in Step(s, l).clients
    ensures Times(Step(s, l).clients[c].events, Kicked) == Times(s.clients[c].events, Kicked) + One(Kicks(s, l, c))
  {
    var es, es' := s.clients[c].events, Step(s, l).clients[c].events;
    KickedEvents(s, l, c);
    hide Step, Times, Kicks;
    if es' != es {
      var e :| es' == es + [e] && (e == Kicked <==> Kicks(s, l, c));
      TimesAppend(es, e);
    }
  }

  lemma KickedEvents(s: State, l: Label, c: ClientId)
    requires c in s.clients
    ensures c in Step(s, l).clients
    ensures var es, es' := s.clients[c].events, Step(s, l).clients[c].events;
      if es' == es then !Kicks(s, l, c) else exists e :: es' == es + [e] && (e == Kicked <==> Kicks(s, l, c))
  {
    if l.Check? || l.Advance? {
      WorkerSays(s, l, c);
    } else {
      OthersSay(s, l, c);
    }
    hide Step;
  }

  /** What a worker's step dispatches about a client: nothing, or one event, which is no kick, is the
      disconnect event exactly for a disconnect job past its wait, and the connect event exactly for a
      connect job past its check; and nobody breaks off by it. */
  lemma WorkerSays(s: State, l: Label, c: ClientId)
    requires c in s.clients && (l.Check? || l.Advance?)
    ensures c in Step(s, l).clients
    ensures var k, k' := s.clients[c], Step(s, l).clients[c];
      && (k'.status == Disconnect <==> k.status == Disconnect)
      && if k'.events == k.events then !Parts(s, l, c) && !Greets(s, l, c)
         else exists e :: k'.events == k.events + [e] && e != Kicked && (e == Event.Disconnected <==> Parts(s, l, c)) &&
                          (e == Connected <==> Greets(s, l, c))
  {
    hide CheckRegion, AdvanceRegion;
    if l.Check? {
      if Holds(s, l.w) && Addressed(s, s.workers[l.w].value) { CheckSays(s, l.w, s.workers[l.w].value, c); }
    } else if Holds(s, l.w) && !s.heap[s.workers[l.w].value].kind.CustomJob? && Addressed(s, s.workers[l.w].value) {
      AdvanceSays(s, l.w, s.workers[l.w].value, c);
    }
  }

  lemma CheckSays(s: State, w: WorkerId, j: JobId, c: ClientId)
    requires c in s.clients && j in s.heap && Addressed(s, j)
    ensures var t := CheckRegion(s, w, j);
      c in t.clients && t.clients[c].events == s.clients[c].events && t.clients[c].status == s.clients[c].status
  {
  }

  lemma AdvanceSays(s: State, w: WorkerId, j: JobId, c: ClientId)
    requires c in s.clients && j in s.heap && !s.heap[j].kind.CustomJob? && Addressed(s, j)
    ensures c in AdvanceRegion(s, w, j).clients
    ensures var k, k' := s.clients[c], AdvanceRegion(s, w, j).clients[c];
      && (k'.status == Disconnect <==> k.status == Disconnect)
      && if k'.events == k.events then s.heap[j] != Job(DisconnectJob(c), Sent) && s.heap[j] != Job(ConnectJob(c), Checked)
         else exists e :: k'.events == k.events + [e] && e != Kicked &&
                          (e == Event.Disconnected <==> s.heap[j] == Job(DisconnectJob(c), Sent)) &&
                          (e == Connected <==> s.heap[j] == Job(ConnectJob(c), Checked))
  {
    var k, k' := s.clients[c], AdvanceRegion(s, w, j).clients[c];
    if k'.events != k.events {
      var e := k'.events[|k.events|];
      assert k'.events == k.events + [e];
    }
  }

  /** What the other steps dispatch. */
  lemma OthersSay(s: State, l: Label, c: ClientId)
    requires c in s.clients && !l.Check? && !l.Advance?
    ensures c in Step(s, l).clients
    ensures var k, k' := s.clients[c], Step(s, l).clients[c];
      && (k'.status == Disconnect <==> k.status == Disconnect || Breaks(s, l, c))
      && k'.events == if Kicks(s, l, c) then k.events + [Kicked] else k.events
  {
  }

  /** Who is kicked is disconnecting from then on, and not kicked again. */
  lemma TurnsStep(s: State, l: Label, c: ClientId)
    requires c in s.clients
    ensures c in Step(s, l).clients
    ensures Step(s, l).clients[c].status == Disconnect <==> s.clients[c].status == Disconnect || Breaks(s, l, c)
  {
    if l.Check? || l.Advance? {
      WorkerSays(s, l, c);
    } else {
      OthersSay(s, l, c);
    }
    hide Step;
  }

  /** `Client.kick` is dispatched once for every step that kicks the client, of which there is at most
      one. */
  lemma {:induction false} KickedAtMostOnce(ls: seq<Label>, c: ClientId)
    requires c in Run(Start, ls).clients
    ensures Times(Run(Start, ls).clients[c].events, Kicked) == KickCount(ls, c) <= 1
    ensures KickCount(ls, c) > 0 ==> Run(Start, ls).clients[c].status == Disconnect
  {
    hide Step, Times, Breaks;
    var before, l := ls[..|ls| - 1], ls[|ls| - 1];
    var s := Run(Start, before);
    if c in s.clients {
      KickedAtMostOnce(before, c);
      KickedStep(s, l, c);
      TurnsStep(s, l, c);
      KickBreaks(s, l, c);
    } else {
      NoneYet(before, c);
      NewClient(s, l, c);
    }
  }

  lemma KickBreaks(s: State, l: Label, c: ClientId)
    ensures Kicks(s, l, c) ==> Breaks(s, l, c)
  {
  }

  lemma {:induction false} NoneYet(ls: seq<Label>, c: ClientId)
    requires c !in Run(Start, ls).clients
    ensures KickCount(ls, c) == 0 && BreakCount(ls, c) == 0
  {
    hide Step;
    if ls != [] {
      StillNone(Run(Start, ls[..|ls| - 1]), ls[|ls| - 1], c);
      NoneYet(ls[..|ls| - 1], c);
    }
  }

  lemma StillNone(s: State, l: Label, c: ClientId)
    requires c !in Step(s, l).clients
    ensures c !in s.clients
  {
  }

  lemma NewClient(s: State, l: Label, c: ClientId)
    requires c !in s.clients && c in Step(s, l).clients
    ensures Step(s, l).clients[c] == FreshClient && Step(s, l).heap == s.heap && !Kicks(s, l, c) && !Breaks(s, l, c)
    ensures forall e :: Times(Step(s, l).clients[c].events, e) == 0
  {
  }

  /** A client is disconnecting exactly when it was kicked or its connection failed in some step. */
  lemma {:induction false} BrokenOffIff(ls: seq<Label>, c: ClientId)
    requires c in Run(Start, ls).clients
    ensures Run(Start, ls).clients[c].status == Disconnect <==> BreakCount(ls, c) > 0
  {
    hide Step, Times, Breaks;
    var before, l := ls[..|ls| - 1], ls[|ls| - 1];
    var s := Run(Start, before);
    if c in s.clients {
      BrokenOffIff(before, c);
      TurnsStep(s, l, c);
    } else {
      NoneYet(before, c);
      NewClient(s, l, c);
    }
  }

  lemma LeavingStep(s: State, l: Label, c: ClientId)
    requires Inv(s) && c in s.clients
    ensures |Leaving(Step(s, l), c)| == |Leaving(s, c)| + One(Breaks(s, l, c)) - One(Parts(s, l, c))
  {
    if Breaks(s, l, c) {
      BreakAdds(s, l, c);
    } else if Parts(s, l, c) {
      PartEnds(s, l.w, c);
    } else {
      SameLeaving(s, l, c);
    }
  }

  lemma BreakAdds(s: State, l: Label, c: ClientId)
    requires Breaks(s, l, c)
    ensures l.j !in Leaving(s, c) && Leaving(Step(s, l), c) == Leaving(s, c) + {l.j} && !Parts(s, l, c)
  {
  }

  lemma PartEnds(s: State, w: WorkerId, c: ClientId)
    requires Parts(s, Advance(w), c)
    ensures var j := s.workers[w].value;
      j in Leaving(s, c) && Leaving(Step(s, Advance(w)), c) == Leaving(s, c) - {j}
  {
  }

  lemma SameLeaving(s: State, l: Label, c: ClientId)
    requires c in s.clients && !Breaks(s, l, c) && !Parts(s, l, c)
    ensures Leaving(Step(s, l), c) == Leaving(s, c)
  {
    forall j
      ensures j in Leaving(Step(s, l), c) <==> j in Leaving(s, c)
    {
    }
  }

  lemma PartedStep(s: State, l: Label, c: ClientId)
    requires c in s.clients
    ensures c in Step(s, l).clients
    ensures Times(Step(s, l).clients[c].events, Event.Disconnected) ==
            Times(s.clients[c].events, Event.Disconnected) + One(Parts(s, l, c))
  {
    var es, es' := s.clients[c].events, Step(s, l).clients[c].events;
    PartedEvents(s, l, c);
    hide Step, Times, Parts;
    if es' != es {
      var e :| es' == es + [e] && (e == Event.Disconnected <==> Parts(s, l, c));
      TimesAppend(es, e);
    }
  }

  lemma PartedEvents(s: State, l: Label, c: ClientId)
    requires c in s.clients
    ensures c in Step(s, l).clients
    ensures var es, es' := s.clients[c].events, Step(s, l).clients[c].events;
      if es' == es then !Parts(s, l, c)
      else exists e :: es' == es + [e] && (e == Event.Disconnected <==> Parts(s, l, c))
  {
    if l.Check? || l.Advance? {
      WorkerSays(s, l, c);
    } else {
      OthersSay(s, l, c);
    }
    hide Step;
  }

  /** `Client.disconnect` is dispatched once for every step that kicks the client or in which its
      connection fails, as far as the disconnect jobs queued then are not still waiting or in hand: a
      client that is kicked and whose connection fails afterwards can be reported twice. */
  lemma {:induction false} DisconnectedCount(ls: seq<Label>, c: ClientId)
    requires c in Run(Start, ls).clients
    ensures var s := Run(Start, ls);
      Times(s.clients[c].events, Event.Disconnected) + |Leaving(s, c)| == BreakCount(ls, c)
  {
    hide Step, Times, Breaks, Parts, Inv, Leaving;
    var before, l := ls[..|ls| - 1], ls[|ls| - 1];
    var s := Run(Start, before);
    RunKeeps(before);
    if c in s.clients {
      DisconnectedCount(before, c);
      PartedStep(s, l, c);
      LeavingStep(s, l, c);
    } else {
      NoneYet(before, c);
      NewClient(s, l, c);
      NoneLeaves(s, l, c);
    }
  }

  lemma NoneLeaves(s: State, l: Label, c: ClientId)
    requires Inv(s) && c !in s.clients && Step(s, l).heap == s.heap
    ensures Leaving(Step(s, l), c) == {}
  {
    assert forall j :: j in s.heap ==> JobOk(s, j);
    hide Step;
  }
}
