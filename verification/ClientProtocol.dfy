/** The life of a client in the server: the event loop and any number of workers act on clients and
    on one shared queue of jobs. Every region the program runs under a lock, and every event it
    dispatches, is one atomic step here; a run is any sequence of such steps. */
module ClientProtocol {

  type ClientId = nat
  type WorkerId = nat
  type JobId = nat
  type Packet = nat

  datatype Option<T> = None | Some(value: T)

  datatype Status = Connect | Idle | Process | Disconnect

  /** What is dispatched to the plugins about one client. */
  datatype Event = Kicked | Connected | Processing(packet: Packet) | Processed(packet: Packet) | Disconnected

  /** `jobs` is an unsigned byte. The rest is history: the packets parsed so far, the events
      dispatched so far, and whether the connect job was dropped because the client was already
      disconnecting. */
  datatype Client = Client(status: Status, jobs: nat, parsed: seq<Packet>, events: seq<Event>, dropped: bool)

  datatype Kind = ConnectJob(client: ClientId) | ProcessJob(client: ClientId, packet: Packet)
                | DisconnectJob(client: ClientId) | CustomJob

  /** How far a job has got: in the queue; taken by a worker; past the status check; and then one
      stage more for every event dispatched or wait passed. */
  datatype Stage = Queued | Taken | Checked | Sent | Done

  datatype Job = Job(kind: Kind, stage: Stage)

  /** `accepting` holds the clients that are listed but whose connect job is not yet queued. */
  datatype State = State(clients: map<ClientId, Client>, accepting: set<ClientId>,
                         heap: map<JobId, Job>, queue: seq<JobId>, workers: map<WorkerId, Option<JobId>>)

  /** What the protocol's parser makes of the input buffer. */
  datatype Input = Incomplete | Parsed(packet: Packet) | Malformed

  datatype Label =
    | Register(c: ClientId)
    | EnqueueConnect(c: ClientId, j: JobId)
    | Read(c: ClientId, input: Input, j: JobId)
    | Kick(c: ClientId, j: JobId)
    | Error(c: ClientId, j: JobId)
    | Custom(j: JobId)
    | Spawn(w: WorkerId)
    | Take(w: WorkerId)
    | Check(w: WorkerId)
    | Advance(w: WorkerId)

  const FreshClient := Client(Connect, 0, [], [], false)
  const Start := State(map[], {}, map[], [], map[])

  function Up(jobs: nat): nat {
    (jobs + 1) % 256
  }

  function Down(jobs: nat): nat {
    (jobs + 255) % 256
  }

  // ---------- the steps ----------

  /** `CD_AddJob` of a newly allocated job. */
  function AddJob(s: State, j: JobId, kind: Kind): State {
    s.(heap := s.heap[j := Job(kind, Queued)], queue := s.queue + [j])
  }

  function SetClient(s: State, c: ClientId, k: Client): State {
    s.(clients := s.clients[c := k])
  }

  /** The worker goes on with its job. */
  function SetStage(s: State, j: JobId, stage: Stage): State
    requires j in s.heap
  {
    s.(heap := s.heap[j := s.heap[j].(stage := stage)])
  }

  /** `CD_DestroyJob`, and the worker is ready for the next job. */
  function Finish(s: State, w: WorkerId, j: JobId): State {
    s.(heap := s.heap - {j}, workers := s.workers[w := None])
  }

  function KickRegion(s: State, c: ClientId, j: JobId): State
    requires c in s.clients
  {
    var k := s.clients[c];
    if k.status == Disconnect then s
    else AddJob(SetClient(s, c, k.(status := Disconnect, events := k.events + [Kicked])), j, DisconnectJob(c))
  }

  function ErrorRegion(s: State, c: ClientId, j: JobId): State
    requires c in s.clients
  {
    AddJob(SetClient(s, c, s.clients[c].(status := Disconnect)), j, DisconnectJob(c))
  }

  function ReadRegion(s: State, c: ClientId, input: Input, j: JobId): State
    requires c in s.clients
  {
    var k := s.clients[c];
    if k.status != Idle then s
    else match input
      case Incomplete => s
      case Malformed => KickRegion(s, c, j)
      case Parsed(p) =>
        AddJob(SetClient(s, c, k.(status := Process, jobs := Up(k.jobs), parsed := k.parsed + [p])), j, ProcessJob(c, p))
  }

  /** The status check of the worker: a client that disconnects only has its disconnect jobs run. */
  function CheckRegion(s: State, w: WorkerId, j: JobId): State
    requires j in s.heap && (!s.heap[j].kind.CustomJob? ==> s.heap[j].kind.client in s.clients)
  {
    match s.heap[j].kind
    case CustomJob => Finish(s, w, j)
    case DisconnectJob(_) => SetStage(s, j, Checked)
    case ConnectJob(c) =>
      var k := s.clients[c];
      if k.status == Disconnect then Finish(SetClient(s, c, k.(jobs := Down(k.jobs), dropped := true)), w, j)
      else SetStage(s, j, Checked)
    case ProcessJob(c, _) =>
      var k := s.clients[c];
      if k.status == Disconnect then Finish(SetClient(s, c, k.(jobs := Down(k.jobs))), w, j)
      else SetStage(s, j, Checked)
  }

  function Dispatch(s: State, c: ClientId, e: Event): State
    requires c in s.clients
  {
    SetClient(s, c, s.clients[c].(events := s.clients[c].events + [e]))
  }

  function BackToIdle(k: Client): Client {
    if k.status == Disconnect then k else k.(status := Idle)
  }

  /** What the worker does next with a job that passed the check. */
  function AdvanceRegion(s: State, w: WorkerId, j: JobId): State
    requires j in s.heap && !s.heap[j].kind.CustomJob? && s.heap[j].kind.client in s.clients
  {
    var c := s.heap[j].kind.client;
    var k := s.clients[c];
    match (s.heap[j].kind, s.heap[j].stage)
    case (ConnectJob(_), Checked) => SetStage(Dispatch(s, c, Connected), j, Sent)
    case (ConnectJob(_), Sent) => Finish(SetClient(s, c, BackToIdle(k)), w, j)
    case (ProcessJob(_, p), Checked) => SetStage(Dispatch(s, c, Processing(p)), j, Sent)
    case (ProcessJob(_, p), Sent) => SetStage(Dispatch(s, c, Processed(p)), j, Done)
    case (ProcessJob(_, _), Done) => Finish(SetClient(s, c, BackToIdle(k).(jobs := Down(k.jobs))), w, j)
    case (DisconnectJob(_), Checked) => if k.jobs < 1 then SetStage(s, j, Sent) else s
    case (DisconnectJob(_), Sent) => Finish(Dispatch(s, c, Disconnected), w, j)
    case _ => s
  }

  predicate Holds(s: State, w: WorkerId) {
    w in s.workers && s.workers[w].Some? && s.workers[w].value in s.heap
  }

  /** The job is a client job whose client exists, or a custom job. */
  predicate Addressed(s: State, j: JobId)
    requires j in s.heap
  {
    !s.heap[j].kind.CustomJob? ==> s.heap[j].kind.client in s.clients
  }

  /** One step; a step that is not possible changes nothing. */
  function Step(s: State, l: Label): State {
    match l
    case Register(c) =>
      if c in s.clients then s
      else s.(clients := s.clients[c := FreshClient], accepting := s.accepting + {c})
    case EnqueueConnect(c, j) =>
      if c !in s.accepting || j in s.heap then s
      else AddJob(s.(accepting := s.accepting - {c}), j, ConnectJob(c))
    case Read(c, input, j) => if c !in s.clients || j in s.heap then s else ReadRegion(s, c, input, j)
    case Kick(c, j) => if c !in s.clients || j in s.heap then s else KickRegion(s, c, j)
    case Error(c, j) => if c !in s.clients || j in s.heap then s else ErrorRegion(s, c, j)
    case Custom(j) => if j in s.heap then s else AddJob(s, j, CustomJob)
    case Spawn(w) => if w in s.workers then s else s.(workers := s.workers[w := None])
    case Take(w) =>
      if w !in s.workers || s.workers[w].Some? || s.queue == [] || s.queue[0] !in s.heap then s
      else SetStage(s, s.queue[0], Taken).(queue := s.queue[1..], workers := s.workers[w := Some(s.queue[0])])
    case Check(w) =>
      if !Holds(s, w) || s.heap[s.workers[w].value].stage != Taken || !Addressed(s, s.workers[w].value) then s
      else CheckRegion(s, w, s.workers[w].value)
    case Advance(w) =>
      if !Holds(s, w) || s.heap[s.workers[w].value].kind.CustomJob? || !Addressed(s, s.workers[w].value) then s
      else AdvanceRegion(s, w, s.workers[w].value)
  }

  function Run(s: State, ls: seq<Label>): State {
    if ls == [] then s else Step(Run(s, ls[..|ls| - 1]), ls[|ls| - 1])
  }

  // ---------- what is to be shown ----------

  /** The process jobs of a client that are queued or running. */
  function Outstanding(s: State, c: ClientId): set<JobId> {
    set j | j in s.heap && s.heap[j].kind.ProcessJob? && s.heap[j].kind.client == c
  }

  function Connecting(s: State, c: ClientId): set<JobId> {
    set j | j in s.heap && s.heap[j].kind.ConnectJob? && s.heap[j].kind.client == c
  }

  /** The packets of the `Client.process` and of the `Client.processed` events. */
  function Begun(es: seq<Event>): seq<Packet> {
    if es == [] then []
    else Begun(es[..|es| - 1]) + (if es[|es| - 1].Processing? then [es[|es| - 1].packet] else [])
  }

  function Ended(es: seq<Event>): seq<Packet> {
    if es == [] then []
    else Ended(es[..|es| - 1]) + (if es[|es| - 1].Processed? then [es[|es| - 1].packet] else [])
  }

  /** No packet is processed after the client was reported as disconnected. */
  predicate QuietAfterDisconnect(es: seq<Event>) {
    forall i, j :: 0 <= i < j < |es| && es[i].Disconnected? ==> !es[j].Processing? && !es[j].Processed?
  }

  // ---------- the invariant ----------

  /** Every job is in the queue once or held by one worker, and every stage fits its job. */
  ghost predicate Placed(s: State) {
    && (forall i :: 0 <= i < |s.queue| ==> s.queue[i] in s.heap && s.heap[s.queue[i]].stage == Queued)
    && (forall i, j :: 0 <= i < j < |s.queue| ==> s.queue[i] != s.queue[j])
    && (forall w :: w in s.workers && s.workers[w].Some? ==>
          s.workers[w].value in s.heap && s.heap[s.workers[w].value].stage != Queued)
    && (forall v, w :: v in s.workers && w in s.workers && v != w && s.workers[v].Some? ==>
          s.workers[v] != s.workers[w])
  }

  ghost predicate JobOk(s: State, j: JobId)
    requires j in s.heap
  {
    && Addressed(s, j)
    && (s.heap[j].kind.DisconnectJob? ==>
          var k := s.clients[s.heap[j].kind.client];
          && k.status == Disconnect
          && (s.heap[j].stage == Sent ==> Outstanding(s, s.heap[j].kind.client) == {}))
    && (s.heap[j].kind.ProcessJob? ==>
          var k := s.clients[s.heap[j].kind.client];
          match s.heap[j].stage
          case Sent => k.parsed == Begun(k.events) == Ended(k.events) + [s.heap[j].kind.packet]
          case Done => k.parsed == Begun(k.events) == Ended(k.events)
          case _ => Begun(k.events) == Ended(k.events) && k.parsed == Begun(k.events) + [s.heap[j].kind.packet])
  }

  ghost predicate ClientOk(s: State, c: ClientId)
    requires c in s.clients
  {
    var k, o, n, a := s.clients[c], Outstanding(s, c), Connecting(s, c), c in s.accepting;
    && (match k.status
        case Connect => o == {} && (n != {} || a)
        case Idle => o == {} && n == {} && !a
        case Process => |o| == 1 && n == {} && !a
        case Disconnect => |o| <= 1)
    && |n| <= 1 && (a ==> n == {})
    && (a || n != {} ==> o == {})
    && (k.dropped ==> k.status == Disconnect && o == {} && n == {} && !a)
    && k.jobs == (if k.dropped then 255 else |o|)
    && (o == {} ==> && Begun(k.events) == Ended(k.events)
                    && (k.parsed == Begun(k.events) ||
                        (k.status == Disconnect && k.parsed != [] &&
                         k.parsed[..|k.parsed| - 1] == Begun(k.events))))
    && (Event.Disconnected in k.events ==> k.status == Disconnect && o == {})
    && QuietAfterDisconnect(k.events)
  }

  ghost predicate Inv(s: State) {
    && Placed(s)
    && s.accepting <= s.clients.Keys
    && (forall j :: j in s.heap ==> JobOk(s, j))
    && (forall c :: c in s.clients ==> ClientOk(s, c))
  }

  // ---------- every step keeps the invariant ----------

  predicate About(job: Job, c: ClientId) {
    job.kind.CustomJob? || job.kind.client == c
  }

  /** The step concerned only client c and job j. */
  ghost predicate Local(s: State, s': State, c: ClientId, j: JobId) {
    && s.clients.Keys <= s'.clients.Keys && s'.accepting <= s'.clients.Keys
    && (forall d :: d in s'.clients && d != c ==>
          d in s.clients && s'.clients[d] == s.clients[d] && (d in s.accepting <==> d in s'.accepting))
    && (forall i :: i != j ==> (i in s.heap <==> i in s'.heap))
    && (forall i :: i != j && i in s.heap && i in s'.heap ==> s'.heap[i] == s.heap[i])
    && (j in s.heap ==> About(s.heap[j], c))
    && (j in s'.heap ==> About(s'.heap[j], c))
  }

  lemma OthersUntouched(s: State, s': State, c: ClientId, j: JobId, d: ClientId)
    requires Local(s, s', c, j) && d != c
    ensures Outstanding(s', d) == Outstanding(s, d) && Connecting(s', d) == Connecting(s, d)
  {
  }

  ghost predicate JobsOkOf(s: State, c: ClientId) {
    forall i :: i in s.heap && About(s.heap[i], c) ==> JobOk(s, i)
  }

  lemma LocalKeeps(s: State, s': State, c: ClientId, j: JobId)
    requires Inv(s) && Local(s, s', c, j) && Placed(s')
    requires c in s'.clients ==> ClientOk(s', c)
    requires JobsOkOf(s', c)
    ensures Inv(s')
  {
    forall d | d in s'.clients
      ensures ClientOk(s', d)
    {
      if d != c {
        OthersUntouched(s, s', c, j, d);
        assert ClientOk(s, d);
      }
    }
    forall i | i in s'.heap
      ensures JobOk(s', i)
    {
      if !About(s'.heap[i], c) {
        assert JobOk(s, i);
        OthersUntouched(s, s', c, j, s'.heap[i].kind.client);
      }
    }
  }

  lemma PlacedAdd(s: State, j: JobId, kind: Kind)
    requires Placed(s) && j !in s.heap
    ensures Placed(AddJob(s, j, kind))
  {
    var s' := AddJob(s, j, kind);
    forall i, k | 0 <= i < k < |s'.queue|
      ensures s'.queue[i] != s'.queue[k]
    {
      assert s.queue[i] in s.heap;
    }
  }

  lemma PlacedFinish(s: State, w: WorkerId, j: JobId)
    requires Placed(s) && w in s.workers && s.workers[w] == Some(j)
    ensures Placed(Finish(s, w, j))
  {
  }

  lemma PlacedStage(s: State, j: JobId, stage: Stage)
    requires Placed(s) && j in s.heap && s.heap[j].stage != Queued && stage != Queued
    ensures Placed(SetStage(s, j, stage))
  {
  }

  lemma BegunAppend(es: seq<Event>, e: Event)
    ensures Begun(es + [e]) == Begun(es) + (if e.Processing? then [e.packet] else [])
    ensures Ended(es + [e]) == Ended(es) + (if e.Processed? then [e.packet] else [])
  {
    assert (es + [e])[..|es|] == es;
  }

  lemma QuietAppend(es: seq<Event>, e: Event)
    requires QuietAfterDisconnect(es)
    requires e.Processing? || e.Processed? ==> Event.Disconnected !in es
    ensures QuietAfterDisconnect(es + [e])
  {
  }

  lemma RegisterKeeps(s: State, c: ClientId)
    requires Inv(s) && c !in s.clients
    ensures Inv(Step(s, Register(c)))
  {
    var s' := Step(s, Register(c));
    forall i | i in s.heap
      ensures !s.heap[i].kind.CustomJob? ==> s.heap[i].kind.client != c
    {
      assert JobOk(s, i);
    }
    forall j | j in s'.heap
      ensures JobOk(s', j)
    {
      assert JobOk(s, j);
      if !s.heap[j].kind.CustomJob? { assert Outstanding(s', s.heap[j].kind.client) == Outstanding(s, s.heap[j].kind.client); }
    }
    assert Outstanding(s', c) == {} && Connecting(s', c) == {};
    forall d | d in s'.clients
      ensures ClientOk(s', d)
    {
      assert Outstanding(s', d) == Outstanding(s, d) && Connecting(s', d) == Connecting(s, d);
      if d != c { assert ClientOk(s, d); }
    }
  }

  lemma EnqueueConnectClient(s: State, c: ClientId, j: JobId)
    requires Inv(s) && c in s.accepting && j !in s.heap
    ensures var s' := Step(s, EnqueueConnect(c, j)); c in s'.clients && ClientOk(s', c) && JobsOkOf(s', c)
  {
    hide Begun, Ended, QuietAfterDisconnect, Placed;
    var s' := AddJob(s.(accepting := s.accepting - {c}), j, ConnectJob(c));
    assert ClientOk(s, c);
    assert Outstanding(s', c) == Outstanding(s, c);
    assert Connecting(s', c) == Connecting(s, c) + {j};
    forall i | i in s'.heap && About(s'.heap[i], c)
      ensures JobOk(s', i)
    {
      if i != j { assert JobOk(s, i); }
    }
  }

  lemma EnqueueConnectKeeps(s: State, c: ClientId, j: JobId)
    requires Inv(s) && c in s.accepting && j !in s.heap
    ensures Inv(Step(s, EnqueueConnect(c, j)))
  {
    hide ClientOk, JobOk, Outstanding, Placed;
    PlacedAccepting(s, s.accepting - {c});
    PlacedAdd(s.(accepting := s.accepting - {c}), j, ConnectJob(c));
    EnqueueConnectClient(s, c, j);
    LocalKeeps(s, Step(s, EnqueueConnect(c, j)), c, j);
  }

  lemma PlacedAccepting(s: State, accepting: set<ClientId>)
    requires Placed(s)
    ensures Placed(s.(accepting := accepting))
  {
  }

  lemma KickedTrace(es: seq<Event>, e: seq<Event>)
    requires QuietAfterDisconnect(es) && (e == [] || e == [Kicked])
    ensures Begun(es + e) == Begun(es) && Ended(es + e) == Ended(es) && QuietAfterDisconnect(es + e)
    ensures Event.Disconnected in es + e <==> Event.Disconnected in es
  {
    if e == [] {
      assert es + e == es;
    } else {
      BegunAppend(es, Kicked);
      QuietAppend(es, Kicked);
    }
  }

  function Disconnecting(s: State, c: ClientId, j: JobId, e: seq<Event>): State
    requires c in s.clients
  {
    var k := s.clients[c];
    AddJob(SetClient(s, c, k.(status := Disconnect, events := k.events + e)), j, DisconnectJob(c))
  }

  lemma DisconnectClient(s: State, c: ClientId, j: JobId, e: seq<Event>)
    requires Inv(s) && c in s.clients && j !in s.heap && (e == [] || e == [Kicked])
    ensures ClientOk(Disconnecting(s, c, j, e), c) && JobsOkOf(Disconnecting(s, c, j, e), c)
  {
    hide Begun, Ended, QuietAfterDisconnect, Placed;
    var k, s' := s.clients[c], Disconnecting(s, c, j, e);
    assert ClientOk(s, c);
    assert Outstanding(s', c) == Outstanding(s, c);
    assert Connecting(s', c) == Connecting(s, c);
    KickedTrace(k.events, e);
    forall i | i in s'.heap && About(s'.heap[i], c)
      ensures JobOk(s', i)
    {
      if i != j { assert JobOk(s, i); }
    }
  }

  lemma DisconnectKeeps(s: State, c: ClientId, j: JobId, e: seq<Event>)
    requires Inv(s) && c in s.clients && j !in s.heap && (e == [] || e == [Kicked])
    ensures Inv(Disconnecting(s, c, j, e))
  {
    hide ClientOk, JobOk, Outstanding;
    var k := s.clients[c];
    PlacedAdd(SetClient(s, c, k.(status := Disconnect, events := k.events + e)), j, DisconnectJob(c));
    DisconnectClient(s, c, j, e);
    LocalKeeps(s, Disconnecting(s, c, j, e), c, j);
  }

  lemma ParsedClient(s: State, c: ClientId, p: Packet, j: JobId)
    requires Inv(s) && c in s.clients && j !in s.heap && s.clients[c].status == Idle
    ensures ClientOk(ReadRegion(s, c, Parsed(p), j), c) && JobsOkOf(ReadRegion(s, c, Parsed(p), j), c)
  {
    hide Begun, Ended, QuietAfterDisconnect, Placed;
    var k := s.clients[c];
    var s' := ReadRegion(s, c, Parsed(p), j);
    assert ClientOk(s, c);
    assert Outstanding(s', c) == Outstanding(s, c) + {j};
    assert Connecting(s', c) == Connecting(s, c);
    forall i | i in s'.heap && About(s'.heap[i], c)
      ensures JobOk(s', i)
    {
      if i != j {
        assert JobOk(s, i);
        assert i !in Outstanding(s, c);
      }
    }
  }

  lemma ParsedKeeps(s: State, c: ClientId, p: Packet, j: JobId)
    requires Inv(s) && c in s.clients && j !in s.heap && s.clients[c].status == Idle
    ensures Inv(ReadRegion(s, c, Parsed(p), j))
  {
    hide ClientOk, JobOk, Outstanding;
    PlacedAdd(SetClient(s, c, ReadRegion(s, c, Parsed(p), j).clients[c]), j, ProcessJob(c, p));
    ParsedClient(s, c, p, j);
    LocalKeeps(s, ReadRegion(s, c, Parsed(p), j), c, j);
  }

  /** A job that is taken or passes the check; nothing else changes but its place. */
  lemma PassKeeps(s: State, s': State, j: JobId, stage: Stage)
    requires Inv(s) && j in s.heap && Placed(s')
    requires s.heap[j].stage in {Queued, Taken} && stage in {Taken, Checked}
    requires s'.clients == s.clients && s'.accepting == s.accepting
    requires s'.heap == s.heap[j := s.heap[j].(stage := stage)]
    ensures Inv(s')
  {
    forall c
      ensures Outstanding(s', c) == Outstanding(s, c) && Connecting(s', c) == Connecting(s, c)
    {
    }
    forall i | i in s'.heap ensures JobOk(s', i) {
      assert JobOk(s, i);
    }
    forall c | c in s'.clients ensures ClientOk(s', c) {
      assert ClientOk(s, c);
    }
  }

  lemma TakeKeeps(s: State, w: WorkerId)
    requires Inv(s)
    ensures Inv(Step(s, Take(w)))
  {
    var s' := Step(s, Take(w));
    if s' != s {
      var j := s.queue[0];
      assert forall i :: 0 <= i < |s'.queue| ==> s'.queue[i] == s.queue[i + 1];
      assert Placed(s') by {
        forall v | v in s.workers && s.workers[v].Some?
          ensures s.workers[v].value != j
        {
        }
      }
      PassKeeps(s, s', j, Taken);
    }
  }

  /** The worker drops the job: the sets of its client lose it, and nobody else notices. */
  predicate Drops(s: State, j: JobId)
    requires j in s.heap && Addressed(s, j)
  {
    && (s.heap[j].kind.ConnectJob? || s.heap[j].kind.ProcessJob?)
    && s.heap[j].stage == Taken && s.clients[s.heap[j].kind.client].status == Disconnect
  }

  lemma DropClient(s: State, w: WorkerId, j: JobId)
    requires Inv(s) && j in s.heap && Addressed(s, j) && Drops(s, j)
    ensures var c := s.heap[j].kind.client;
            ClientOk(CheckRegion(s, w, j), c) && JobsOkOf(CheckRegion(s, w, j), c)
  {
    hide Begun, Ended, QuietAfterDisconnect, Placed;
    var s', c := CheckRegion(s, w, j), s.heap[j].kind.client;
    var k := s.clients[c];
    assert ClientOk(s, c) && JobOk(s, j);
    if s.heap[j].kind.ConnectJob? {
      assert j in Connecting(s, c);
      Singleton(Connecting(s, c), j);
      assert Connecting(s', c) == {};
      assert Outstanding(s', c) == Outstanding(s, c);
    } else {
      assert j in Outstanding(s, c);
      Singleton(Outstanding(s, c), j);
      assert Outstanding(s', c) == {};
      assert Connecting(s', c) == Connecting(s, c);
      assert k.parsed[..|k.parsed| - 1] == Begun(k.events);
    }
    forall i | i in s'.heap && About(s'.heap[i], c)
      ensures JobOk(s', i)
    {
      assert JobOk(s, i);
      assert i !in Outstanding(s', c);
    }
  }

  lemma DropKeeps(s: State, w: WorkerId, j: JobId)
    requires Inv(s) && Holds(s, w) && s.workers[w] == Some(j) && Addressed(s, j) && Drops(s, j)
    ensures Inv(CheckRegion(s, w, j))
  {
    hide ClientOk, JobOk, Outstanding;
    PlacedFinish(s, w, j);
    DropClient(s, w, j);
    LocalKeeps(s, CheckRegion(s, w, j), s.heap[j].kind.client, j);
  }

  lemma Singleton<T>(a: set<T>, x: T)
    requires x in a && |a| <= 1
    ensures a == {x}
  {
    var rest := a - {x};
    assert |rest| == |a| - 1;
    assert a == rest + {x};
  }

  lemma CheckKeeps(s: State, w: WorkerId)
    requires Inv(s)
    ensures Inv(Step(s, Check(w)))
  {
    var s' := Step(s, Check(w));
    if Holds(s, w) && s.heap[s.workers[w].value].stage == Taken && Addressed(s, s.workers[w].value) {
      var j := s.workers[w].value;
      assert JobOk(s, j);
      if s.heap[j].kind.CustomJob? {
        CustomGone(s, w, j);
      } else if !s.heap[j].kind.DisconnectJob? && s.clients[s.heap[j].kind.client].status == Disconnect {
        DropKeeps(s, w, j);
      } else {
        PlacedStage(s, j, Checked);
        PassKeeps(s, s', j, Checked);
      }
    }
  }

  lemma CustomGone(s: State, w: WorkerId, j: JobId)
    requires Inv(s) && Holds(s, w) && s.workers[w] == Some(j) && s.heap[j].kind.CustomJob?
    ensures Inv(Finish(s, w, j))
  {
    var s' := Finish(s, w, j);
    PlacedFinish(s, w, j);
    forall c
      ensures Outstanding(s', c) == Outstanding(s, c) && Connecting(s', c) == Connecting(s, c)
    {
    }
    forall i | i in s'.heap ensures JobOk(s', i) {
      assert JobOk(s, i);
    }
    forall c | c in s'.clients ensures ClientOk(s', c) {
      assert ClientOk(s, c);
    }
  }

  predicate Sends(s: State, j: JobId, e: Event, stage: Stage)
    requires j in s.heap
  {
    s.heap[j].kind.ProcessJob? &&
    match s.heap[j].stage
    case Checked => e == Processing(s.heap[j].kind.packet) && stage == Sent
    case Sent => e == Processed(s.heap[j].kind.packet) && stage == Done
    case _ => false
  }

  lemma SentEvents(s: State, j: JobId, e: Event, stage: Stage)
    requires Inv(s) && j in s.heap && Addressed(s, j) && Sends(s, j, e, stage)
    ensures var c := s.heap[j].kind.client; var k := s.clients[c]; var s' := SetStage(Dispatch(s, c, e), j, stage);
            && Outstanding(s', c) == Outstanding(s, c) == {j} && Connecting(s', c) == Connecting(s, c)
            && ClientOk(s, c) && JobOk(s, j) && Event.Disconnected !in k.events + [e]
            && QuietAfterDisconnect(k.events + [e])
  {
    hide Begun, Ended;
    var c := s.heap[j].kind.client;
    var k, s' := s.clients[c], SetStage(Dispatch(s, c, e), j, stage);
    assert ClientOk(s, c) && JobOk(s, j);
    assert j in Outstanding(s, c);
    Singleton(Outstanding(s, c), j);
    assert Outstanding(s', c) == Outstanding(s, c) && Connecting(s', c) == Connecting(s, c);
    QuietAppend(k.events, e);
  }

  lemma SentClient(s: State, j: JobId, e: Event, stage: Stage)
    requires Inv(s) && j in s.heap && Addressed(s, j) && Sends(s, j, e, stage)
    ensures var c := s.heap[j].kind.client; ClientOk(SetStage(Dispatch(s, c, e), j, stage), c)
  {
    hide Begun, Ended, QuietAfterDisconnect, Outstanding, Connecting, Placed, JobOk;
    SentEvents(s, j, e, stage);
  }

  lemma SentJobs(s: State, j: JobId, e: Event, stage: Stage)
    requires Inv(s) && j in s.heap && Addressed(s, j) && Sends(s, j, e, stage)
    ensures var c := s.heap[j].kind.client; JobsOkOf(SetStage(Dispatch(s, c, e), j, stage), c)
  {
    hide Begun, Ended, QuietAfterDisconnect, Placed, ClientOk;
    var c := s.heap[j].kind.client;
    var s' := SetStage(Dispatch(s, c, e), j, stage);
    SentEvents(s, j, e, stage);
    BegunAppend(s.clients[c].events, e);
    forall i | i in s'.heap && About(s'.heap[i], c)
      ensures JobOk(s', i)
    {
      assert JobOk(s, i);
      if i != j { assert i !in Outstanding(s, c); }
    }
  }

  /** A worker dispatches the event of a process job and goes on with the job. */
  lemma SendKeeps(s: State, w: WorkerId, j: JobId, e: Event, stage: Stage)
    requires Inv(s) && Holds(s, w) && s.workers[w] == Some(j) && Addressed(s, j) && Sends(s, j, e, stage)
    ensures Inv(SetStage(Dispatch(s, s.heap[j].kind.client, e), j, stage))
  {
    hide ClientOk, JobOk, Outstanding;
    var c := s.heap[j].kind.client;
    PlacedStage(s, j, stage);
    SentClient(s, j, e, stage);
    SentJobs(s, j, e, stage);
    LocalKeeps(s, SetStage(Dispatch(s, c, e), j, stage), c, j);
  }

  lemma GreetClient(s: State, w: WorkerId, j: JobId)
    requires Inv(s) && j in s.heap && Addressed(s, j) && s.heap[j] == Job(s.heap[j].kind, Checked)
    requires s.heap[j].kind.ConnectJob?
    ensures var c := s.heap[j].kind.client; var s' := AdvanceRegion(s, w, j);
            ClientOk(s', c) && Outstanding(s', c) == Outstanding(s, c) == {} && JobsOkOf(s', c)
  {
    hide Begun, Ended, QuietAfterDisconnect, Placed;
    var c := s.heap[j].kind.client;
    var s' := AdvanceRegion(s, w, j);
    var k := s.clients[c];
    assert ClientOk(s, c) && JobOk(s, j);
    assert j in Connecting(s, c);
    assert Outstanding(s', c) == Outstanding(s, c) && Connecting(s', c) == Connecting(s, c);
    BegunAppend(k.events, Connected);
    QuietAppend(k.events, Connected);
    forall i | i in s'.heap && About(s'.heap[i], c)
      ensures JobOk(s', i)
    {
      assert JobOk(s, i);
      assert i !in Outstanding(s, c);
    }
  }

  lemma GreetKeeps(s: State, w: WorkerId, j: JobId)
    requires Inv(s) && Holds(s, w) && s.workers[w] == Some(j) && Addressed(s, j)
    requires s.heap[j].kind.ConnectJob? && s.heap[j].stage == Checked
    ensures Inv(AdvanceRegion(s, w, j))
  {
    hide ClientOk, JobOk, Outstanding;
    PlacedStage(s, j, Sent);
    GreetClient(s, w, j);
    LocalKeeps(s, AdvanceRegion(s, w, j), s.heap[j].kind.client, j);
  }

  predicate Ends(s: State, j: JobId)
    requires j in s.heap
  {
    (s.heap[j].kind.ConnectJob? && s.heap[j].stage == Sent) || (s.heap[j].kind.ProcessJob? && s.heap[j].stage == Done)
  }

  lemma EndingJob(s: State, w: WorkerId, j: JobId)
    requires Inv(s) && j in s.heap && Addressed(s, j) && Ends(s, j)
    ensures var s', c := AdvanceRegion(s, w, j), s.heap[j].kind.client;
            && Outstanding(s', c) == Outstanding(s, c) - {j} == {} && Connecting(s', c) == Connecting(s, c) - {j}
            && (s.heap[j].kind.ProcessJob? ==> Outstanding(s, c) == {j})
            && (s.heap[j].kind.ConnectJob? ==> Connecting(s, c) == {j})
  {
    hide Begun, Ended, QuietAfterDisconnect, Placed, JobOk;
    var s', c := AdvanceRegion(s, w, j), s.heap[j].kind.client;
    assert ClientOk(s, c);
    if s.heap[j].kind.ConnectJob? {
      assert j in Connecting(s, c);
      Singleton(Connecting(s, c), j);
    } else {
      assert j in Outstanding(s, c);
      Singleton(Outstanding(s, c), j);
    }
    assert Outstanding(s', c) == Outstanding(s, c) - {j};
    assert Connecting(s', c) == Connecting(s, c) - {j};
  }

  lemma IdleClient(s: State, w: WorkerId, j: JobId)
    requires Inv(s) && j in s.heap && Addressed(s, j) && Ends(s, j)
    ensures ClientOk(AdvanceRegion(s, w, j), s.heap[j].kind.client)
  {
    hide Begun, Ended, QuietAfterDisconnect, Placed, Outstanding, Connecting;
    EndingJob(s, w, j);
    assert ClientOk(s, s.heap[j].kind.client) && JobOk(s, j);
  }

  lemma IdleJobs(s: State, w: WorkerId, j: JobId)
    requires Inv(s) && j in s.heap && Addressed(s, j) && Ends(s, j)
    ensures JobsOkOf(AdvanceRegion(s, w, j), s.heap[j].kind.client)
  {
    hide Begun, Ended, QuietAfterDisconnect, Placed, ClientOk;
    var s', c := AdvanceRegion(s, w, j), s.heap[j].kind.client;
    EndingJob(s, w, j);
    forall i | i in s'.heap && About(s'.heap[i], c)
      ensures JobOk(s', i)
    {
      assert JobOk(s, i);
      assert i !in Outstanding(s', c);
    }
  }

  /** The end of a connect job or of a process job. */
  lemma IdleKeeps(s: State, w: WorkerId, j: JobId)
    requires Inv(s) && Holds(s, w) && s.workers[w] == Some(j) && Addressed(s, j) && Ends(s, j)
    ensures Inv(AdvanceRegion(s, w, j))
  {
    hide ClientOk, JobOk, Outstanding;
    PlacedFinish(s, w, j);
    IdleClient(s, w, j);
    IdleJobs(s, w, j);
    LocalKeeps(s, AdvanceRegion(s, w, j), s.heap[j].kind.client, j);
  }

  lemma WaitKeeps(s: State, w: WorkerId, j: JobId)
    requires Inv(s) && Holds(s, w) && s.workers[w] == Some(j) && Addressed(s, j)
    requires s.heap[j].kind.DisconnectJob? && s.heap[j].stage == Checked
    ensures Inv(AdvanceRegion(s, w, j))
  {
    var s', c := AdvanceRegion(s, w, j), s.heap[j].kind.client;
    assert ClientOk(s, c) && JobOk(s, j);
    if s.clients[c].jobs < 1 {
      PlacedStage(s, j, Sent);
      assert Outstanding(s', c) == Outstanding(s, c) == {};
      assert Connecting(s', c) == Connecting(s, c);
      forall i | i in s'.heap && About(s'.heap[i], c)
        ensures JobOk(s', i)
      {
        assert JobOk(s, i);
      }
      LocalKeeps(s, s', c, j);
    }
  }

  lemma GoneClient(s: State, w: WorkerId, j: JobId)
    requires Inv(s) && j in s.heap && Addressed(s, j)
    requires s.heap[j].kind.DisconnectJob? && s.heap[j].stage == Sent
    ensures var c := s.heap[j].kind.client;
            ClientOk(AdvanceRegion(s, w, j), c) && JobsOkOf(AdvanceRegion(s, w, j), c)
  {
    hide Begun, Ended, QuietAfterDisconnect, Placed;
    var s', c := AdvanceRegion(s, w, j), s.heap[j].kind.client;
    var k := s.clients[c];
    assert ClientOk(s, c) && JobOk(s, j);
    assert Outstanding(s', c) == Outstanding(s, c) && Connecting(s', c) == Connecting(s, c);
    BegunAppend(k.events, Event.Disconnected);
    QuietAppend(k.events, Event.Disconnected);
    forall i | i in s'.heap && About(s'.heap[i], c)
      ensures JobOk(s', i)
    {
      assert JobOk(s, i);
      assert i !in Outstanding(s', c);
    }
  }

  lemma GoneKeeps(s: State, w: WorkerId, j: JobId)
    requires Inv(s) && Holds(s, w) && s.workers[w] == Some(j) && Addressed(s, j)
    requires s.heap[j].kind.DisconnectJob? && s.heap[j].stage == Sent
    ensures Inv(AdvanceRegion(s, w, j))
  {
    hide ClientOk, JobOk, Outstanding;
    PlacedFinish(s, w, j);
    GoneClient(s, w, j);
    LocalKeeps(s, AdvanceRegion(s, w, j), s.heap[j].kind.client, j);
  }

  lemma AdvanceKeeps(s: State, w: WorkerId)
    requires Inv(s)
    ensures Inv(Step(s, Advance(w)))
  {
    if Holds(s, w) && !s.heap[s.workers[w].value].kind.CustomJob? && Addressed(s, s.workers[w].value) {
      var j := s.workers[w].value;
      match (s.heap[j].kind, s.heap[j].stage)
      case (ConnectJob(_), Checked) => GreetKeeps(s, w, j);
      case (ConnectJob(_), Sent) => IdleKeeps(s, w, j);
      case (ProcessJob(_, p), Checked) => SendKeeps(s, w, j, Processing(p), Sent);
      case (ProcessJob(_, p), Sent) => SendKeeps(s, w, j, Processed(p), Done);
      case (ProcessJob(_, _), Done) => IdleKeeps(s, w, j);
      case (DisconnectJob(_), Checked) => WaitKeeps(s, w, j);
      case (DisconnectJob(_), Sent) => GoneKeeps(s, w, j);
      case _ =>
    }
  }

  lemma CustomKeeps(s: State, j: JobId)
    requires Inv(s) && j !in s.heap
    ensures Inv(AddJob(s, j, CustomJob))
  {
    var s' := AddJob(s, j, CustomJob);
    PlacedAdd(s, j, CustomJob);
    forall c
      ensures Outstanding(s', c) == Outstanding(s, c) && Connecting(s', c) == Connecting(s, c)
    {
    }
    forall i | i in s'.heap ensures JobOk(s', i) {
      if i != j { assert JobOk(s, i); }
    }
    forall c | c in s'.clients ensures ClientOk(s', c) {
      assert ClientOk(s, c);
    }
  }

  lemma SpawnKeeps(s: State, w: WorkerId)
    requires Inv(s) && w !in s.workers
    ensures Inv(s.(workers := s.workers[w := None]))
  {
    hide Begun, Ended, QuietAfterDisconnect;
    var s' := s.(workers := s.workers[w := None]);
    forall c
      ensures Outstanding(s', c) == Outstanding(s, c) && Connecting(s', c) == Connecting(s, c)
    {
    }
    forall i | i in s'.heap ensures JobOk(s', i) {
      assert JobOk(s, i);
    }
    forall c | c in s'.clients ensures ClientOk(s', c) {
      assert ClientOk(s, c);
    }
  }

  lemma StepKeeps(s: State, l: Label)
    requires Inv(s)
    ensures Inv(Step(s, l))
  {
    hide Inv, Placed, JobOk, ClientOk;
    match l
    case Register(c) => if c !in s.clients { RegisterKeeps(s, c); }
    case EnqueueConnect(c, j) => if c in s.accepting && j !in s.heap { EnqueueConnectKeeps(s, c, j); }
    case Read(c, input, j) =>
      if c in s.clients && j !in s.heap && s.clients[c].status == Idle {
        match input
        case Incomplete =>
        case Malformed => DisconnectKeeps(s, c, j, [Kicked]);
        case Parsed(p) => ParsedKeeps(s, c, p, j);
      }
    case Kick(c, j) =>
      if c in s.clients && j !in s.heap && s.clients[c].status != Disconnect {
        DisconnectKeeps(s, c, j, [Kicked]);
      }
    case Error(c, j) =>
      if c in s.clients && j !in s.heap {
        DisconnectKeeps(s, c, j, []);
        assert s.clients[c].events + [] == s.clients[c].events;
      }
    case Custom(j) => if j !in s.heap { CustomKeeps(s, j); }
    case Spawn(w) => if w !in s.workers { SpawnKeeps(s, w); }
    case Take(w) => TakeKeeps(s, w);
    case Check(w) => CheckKeeps(s, w);
    case Advance(w) => AdvanceKeeps(s, w);
  }

  // ---------- whole runs ----------

  lemma {:induction false} RunKeeps(ls: seq<Label>)
    ensures Inv(Run(Start, ls))
  {
    if ls != [] {
      RunKeeps(ls[..|ls| - 1]);
      StepKeeps(Run(Start, ls[..|ls| - 1]), ls[|ls| - 1]);
    }
  }

  /** In every interleaving a client has at most one process job queued or running: one while its
      status is Process, none while it is Connect or Idle. */
  lemma AtMostOneProcessJob(ls: seq<Label>, c: ClientId)
    requires c in Run(Start, ls).clients
    ensures var s := Run(Start, ls);
            && |Outstanding(s, c)| <= 1
            && (s.clients[c].status == Process ==> |Outstanding(s, c)| == 1)
            && (s.clients[c].status in {Connect, Idle} ==> Outstanding(s, c) == {})
  {
    RunKeeps(ls);
    assert ClientOk(Run(Start, ls), c);
  }

  /** As long as a client has not broken off, its status says how far it is: Connect while it is being
      accepted or its connect job is unfinished, Process while a process job is, and Idle otherwise. */
  lemma StatusIff(ls: seq<Label>, c: ClientId)
    requires c in Run(Start, ls).clients && Run(Start, ls).clients[c].status != Disconnect
    ensures var s := Run(Start, ls);
            && (s.clients[c].status == Connect <==> c in s.accepting || Connecting(s, c) != {})
            && (s.clients[c].status == Process <==> Outstanding(s, c) != {})
            && (s.clients[c].status == Idle <==> c !in s.accepting && Connecting(s, c) == {} && Outstanding(s, c) == {})
  {
    RunKeeps(ls);
    assert ClientOk(Run(Start, ls), c);
  }

  /** Packets are processed in the order in which they were parsed, and at most the last one parsed
      is still to be processed, or never will be. */
  lemma ProcessedInParseOrder(ls: seq<Label>, c: ClientId)
    requires c in Run(Start, ls).clients
    ensures var k := Run(Start, ls).clients[c];
            && Begun(k.events) <= k.parsed && |k.parsed| <= |Begun(k.events)| + 1
            && Ended(k.events) <= Begun(k.events) && |Begun(k.events)| <= |Ended(k.events)| + 1
  {
    RunKeeps(ls);
    EventOrder(Run(Start, ls), c);
  }

  lemma EventOrder(s: State, c: ClientId)
    requires Inv(s) && c in s.clients
    ensures var k := s.clients[c];
            && Begun(k.events) <= k.parsed && |k.parsed| <= |Begun(k.events)| + 1
            && Ended(k.events) <= Begun(k.events) && |Begun(k.events)| <= |Ended(k.events)| + 1
  {
    assert ClientOk(s, c);
    if Outstanding(s, c) != {} {
      var j :| j in Outstanding(s, c);
      assert JobOk(s, j);
    }
  }

  /** No `Client.process` or `Client.processed` follows a `Client.disconnect`. */
  lemma NothingAfterDisconnect(ls: seq<Label>, c: ClientId)
    requires c in Run(Start, ls).clients
    ensures QuietAfterDisconnect(Run(Start, ls).clients[c].events)
  {
    RunKeeps(ls);
    assert ClientOk(Run(Start, ls), c);
  }

  /** `jobs` counts the unfinished process jobs, except that a dropped connect job makes it 255. */
  lemma JobsCount(ls: seq<Label>, c: ClientId)
    requires c in Run(Start, ls).clients
    ensures var s := Run(Start, ls);
            && (s.clients[c].jobs == |Outstanding(s, c)| <==> !s.clients[c].dropped)
            && (s.clients[c].dropped ==> s.clients[c].jobs == 255 && s.clients[c].status == Disconnect)
  {
    RunKeeps(ls);
    assert ClientOk(Run(Start, ls), c);
  }

  /** What was dispatched stays dispatched, and Disconnect is never left. */
  ghost predicate Evolves(k: Client, k': Client) {
    && k.events <= k'.events
    && k.parsed <= k'.parsed
    && (k.status == Disconnect ==> k'.status == Disconnect && k'.parsed == k.parsed)
    && (k.dropped ==> k'.dropped)
  }

  lemma CheckEvolves(s: State, w: WorkerId, j: JobId, c: ClientId)
    requires c in s.clients && j in s.heap && Addressed(s, j)
    ensures var s' := CheckRegion(s, w, j); c in s'.clients && Evolves(s.clients[c], s'.clients[c])
  {
  }

  lemma AdvanceEvolves(s: State, w: WorkerId, j: JobId, c: ClientId)
    requires c in s.clients && j in s.heap && !s.heap[j].kind.CustomJob? && Addressed(s, j)
    ensures var s' := AdvanceRegion(s, w, j); c in s'.clients && Evolves(s.clients[c], s'.clients[c])
  {
    var s' := AdvanceRegion(s, w, j);
    if s.heap[j].kind.client != c {
      assert s'.clients[c] == s.clients[c];
    }
  }

  /** Clients stay listed and evolve. */
  lemma HistoryGrows(s: State, l: Label, c: ClientId)
    requires c in s.clients
    ensures var s' := Step(s, l); c in s'.clients && Evolves(s.clients[c], s'.clients[c])
  {
    hide CheckRegion, AdvanceRegion;
    if l.Check? && Holds(s, l.w) && Addressed(s, s.workers[l.w].value) {
      CheckEvolves(s, l.w, s.workers[l.w].value, c);
    } else if l.Advance? && Holds(s, l.w) && !s.heap[s.workers[l.w].value].kind.CustomJob? &&
              Addressed(s, s.workers[l.w].value) {
      AdvanceEvolves(s, l.w, s.workers[l.w].value, c);
    }
  }

  // ---------- the program ----------

  /** The server's mutable state and the regions that change it, as the callbacks and the worker loop
      run them. */
  class Server {
    var clients: map<ClientId, Client>
    var accepting: set<ClientId>
    var heap: map<JobId, Job>
    var queue: seq<JobId>
    var workers: map<WorkerId, Option<JobId>>

    ghost function View(): State
      reads this
    {
      State(clients, accepting, heap, queue, workers)
    }

    constructor ()
      ensures View() == Start
    {
      clients, accepting, heap, queue, workers := map[], {}, map[], [], map[];
    }

    /** `CD_AddJob` */
    method Push(j: JobId, kind: Kind)
      modifies this`heap, this`queue
      ensures View() == AddJob(old(View()), j, kind)
    {
      heap := heap[j := Job(kind, Queued)];
      queue := queue + [j];
    }

    method Destroy(w: WorkerId, j: JobId)
      modifies this`heap, this`workers
      ensures View() == Finish(old(View()), w, j)
    {
      heap := heap - {j};
      workers := workers[w := None];
    }

    method GoOn(j: JobId, stage: Stage)
      requires j in heap
      modifies this`heap
      ensures View() == SetStage(old(View()), j, stage)
    {
      heap := heap[j := heap[j].(stage := stage)];
    }

    method SetStatus(c: ClientId, status: Status)
      requires c in clients
      modifies this`clients
      ensures clients == old(clients)[c := old(clients)[c].(status := status)]
    {
      clients := clients[c := clients[c].(status := status)];
    }

    method SetJobs(c: ClientId, jobs: nat)
      requires c in clients
      modifies this`clients
      ensures clients == old(clients)[c := old(clients)[c].(jobs := jobs)]
    {
      clients := clients[c := clients[c].(jobs := jobs)];
    }

    method Emit(c: ClientId, e: Event)
      requires c in clients
      modifies this`clients
      ensures View() == Dispatch(old(View()), c, e)
    {
      clients := clients[c := clients[c].(events := clients[c].events + [e])];
    }

    /** `CD_ServerKick` */
    method KickClient(c: ClientId, j: JobId)
      requires c in clients && j !in heap
      modifies this
      ensures View() == Step(old(View()), Kick(c, j))
    {
      if clients[c].status == Disconnect { return; }
      Emit(c, Kicked);
      SetStatus(c, Disconnect);
      Push(j, DisconnectJob(c));
    }

    /** `cd_ReadCallback` */
    method ReadCallback(c: ClientId, input: Input, j: JobId)
      requires c in clients && j !in heap
      modifies this
      ensures View() == Step(old(View()), Read(c, input, j))
    {
      if clients[c].status == Idle {
        match input
        case Incomplete =>
        case Malformed => KickClient(c, j);
        case Parsed(p) =>
          clients := clients[c := clients[c].(parsed := clients[c].parsed + [p])];
          SetStatus(c, Process);
          SetJobs(c, Up(clients[c].jobs));
          Push(j, ProcessJob(c, p));
      }
    }

    /** `cd_ErrorCallback` */
    method ErrorCallback(c: ClientId, j: JobId)
      requires c in clients && j !in heap
      modifies this
      ensures View() == Step(old(View()), Error(c, j))
    {
      SetStatus(c, Disconnect);
      Push(j, DisconnectJob(c));
    }

    /** The two halves of `cd_Accept` that other threads can tell apart. */
    method ListClient(c: ClientId)
      requires c !in clients
      modifies this
      ensures View() == Step(old(View()), Register(c))
    {
      clients := clients[c := FreshClient];
      accepting := accepting + {c};
    }

    method QueueConnect(c: ClientId, j: JobId)
      requires c in accepting && j !in heap
      modifies this
      ensures View() == Step(old(View()), EnqueueConnect(c, j))
    {
      accepting := accepting - {c};
      Push(j, ConnectJob(c));
    }

    /** `CD_NextJob`: the oldest job, or none. */
    method NextJob(w: WorkerId)
      requires w in workers && workers[w].None? && (queue == [] || queue[0] in heap)
      modifies this
      ensures View() == Step(old(View()), Take(w))
    {
      if queue == [] { return; }
      var j := queue[0];
      queue := queue[1..];
      workers := workers[w := Some(j)];
      GoOn(j, Taken);
    }

    /** The first half of the worker's handling of a job. */
    method CheckJob(w: WorkerId)
      requires Holds(View(), w) && heap[workers[w].value].stage == Taken && Addressed(View(), workers[w].value)
      modifies this
      ensures View() == Step(old(View()), Check(w))
    {
      var j := workers[w].value;
      if heap[j].kind.CustomJob? {
        Destroy(w, j);
        return;
      }
      var c := heap[j].kind.client;
      if clients[c].status == Disconnect && !heap[j].kind.DisconnectJob? {
        if heap[j].kind.ConnectJob? { clients := clients[c := clients[c].(dropped := true)]; }
        SetJobs(c, Down(clients[c].jobs));
        Destroy(w, j);
        return;
      }
      GoOn(j, Checked);
    }

    /** The second half, one dispatch or locked region at a time. */
    method ContinueJob(w: WorkerId)
      requires Holds(View(), w) && !heap[workers[w].value].kind.CustomJob? && Addressed(View(), workers[w].value)
      modifies this
      ensures View() == Step(old(View()), Advance(w))
    {
      var j := workers[w].value;
      var c := heap[j].kind.client;
      match heap[j].kind
      case ConnectJob(_) =>
        if heap[j].stage == Checked {
          Emit(c, Connected);
          GoOn(j, Sent);
        } else if heap[j].stage == Sent {
          if clients[c].status != Disconnect { SetStatus(c, Idle); }
          Destroy(w, j);
        }
      case ProcessJob(_, p) =>
        if heap[j].stage == Checked {
          Emit(c, Processing(p));
          GoOn(j, Sent);
        } else if heap[j].stage == Sent {
          Emit(c, Processed(p));
          GoOn(j, Done);
        } else if heap[j].stage == Done {
          if clients[c].status != Disconnect { SetStatus(c, Idle); }
          SetJobs(c, Down(clients[c].jobs));
          Destroy(w, j);
        }
      case DisconnectJob(_) =>
        if heap[j].stage == Checked {
          if clients[c].jobs < 1 { GoOn(j, Sent); }
        } else if heap[j].stage == Sent {
          Emit(c, Event.Disconnected);
          Destroy(w, j);
        }
    }
  }
}
