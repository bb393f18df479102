/** The mission protocol of testapp.c: one AutoBot on the device side and successive
    CommandTrip sessions on the host side, over the two mission queues at their real
    granularity (RendezvousSteps) and the interrupt pipeline with every operation of
    the drivers one atomic step (InterruptPipeline).  A session whose IOCTL fails
    leaves early. */
module Mission {
  import opened Wdf
  import opened MissionText
  import R = Rendezvous
  import S = RendezvousSteps
  import P = InterruptPipeline
  import D = DeviceLatch
  import H = HostLatch

  const MISSION_SUCCEEDED: uint32 := 10

  datatype Bot =
    | BotReading                 // about to call ReadFile
    | BotParking                 // its read found no mission, and is about to park
    | BotParked                  // its read is parked
    | BotHolding(data: Bytes)    // has read a mission
    | BotSending                 // its response found no read, and is about to park
    | BotReplied                 // has written the response, about to raise

  datatype Trip =
    | TripIdle                   // no session open
    | TripWriting                // its mission found no read, and is about to park
    | TripSent                   // mission written, about to ask for the interrupt
    | TripWaiting                // its IOCTL is parked
    | TripNotified(value: uint32)   // about to read the response
    | TripStuck                  // the response read found nothing

  /** A session that read a response, and how many had left before it. */
  datatype Finish = Finish(session: nat, left: nat)

  datatype World = World(
    request: S.State,            // missionRequest
    completion: S.State,         // missionCompletion
    pipe: P.Pipe,
    bot: Bot,
    trip: Trip,
    missions: seq<Bytes>,        // the texts sent, one per session
    results: seq<Bytes>,         // the texts the finished sessions read
    finished: seq<Finish>,       // which sessions those were
    left: nat)                   // sessions that left with a failed IOCTL

  const INIT := World(S.INIT, S.INIT, P.INIT, BotReading, TripIdle, [], [], [], 0)

  const TRIP_ASK := H.Waiter(0, 4)

  datatype Step =
    | BotLook
    | BotPark
    | BotReply
    | BotSend
    | BotRaise
    | TripWrite(mission: Bytes)
    | TripPark
    | TripAsk
    | TripRead
    | Pipeline(op: P.Op)         // URB submissions and arrivals, sleeps and wakes

  predicate Enabled(w: World, step: Step) {
    match step
    case BotLook => w.bot.BotReading? && S.Enabled(w.request, S.LookForWrite(NextRead(w.request)))
    case BotPark => w.bot.BotParking? && w.request.puller.Some?
    case BotReply => w.bot.BotHolding? && |w.bot.data| <= BUFFER_SIZE && w.completion.pusher.None?
    case BotSend => w.bot.BotSending? && w.completion.pusher.Some?
    case BotRaise => w.bot.BotReplied?
    case TripWrite(mission) =>
      w.trip.TripIdle? && w.request.pusher.None? && (forall i | 0 <= i < |mission| :: mission[i] != 0)
    case TripPark => w.trip.TripWriting? && w.request.pusher.Some?
    case TripAsk => w.trip.TripSent?
    case TripRead =>
      && w.trip.TripNotified? && w.trip.value == MISSION_SUCCEEDED
      && S.Enabled(w.completion, S.LookForWrite(NextRead(w.completion)))
    case Pipeline(op) => P.Enabled(w.pipe, op) && !op.Raise? && !op.Ask? && !op.CancelAsk?
  }

  /** A read of 250 bytes under a new id. */
  function NextRead(q: S.State): R.Read {
    R.Read(|q.pulled|, BUFFER_SIZE)
  }

  /** What the last delivery carried. */
  function LastData(q: S.State): Bytes {
    if q.handed == [] || q.handed[|q.handed| - 1].write >= |q.pushed| then []
    else
      var h := q.handed[|q.handed| - 1];
      R.Deliver(q.pushed[h.write], h.read).data
  }

  /** The session after the pipeline has moved: its IOCTL is completed with a signal, or
      with an error, or not at all. */
  function Answered(w: World, op: P.Op, otherwise: Trip): World
    requires P.Enabled(w.pipe, op)
  {
    var w' := w.(pipe := P.Next(w.pipe, op));
    var out := P.Added(w.pipe, op);
    if out == [] then w'.(trip := otherwise)
    else
      match out[0]
      case Done(_, _, signal) => w'.(trip := TripNotified(signal.value))
      case Failed(_, _, _) => w'.(trip := TripIdle, left := w.left + 1)
  }

  function Next(w: World, step: Step): World
    requires Enabled(w, step)
  {
    match step
    case BotLook =>
      var q := S.Next(w.request, S.LookForWrite(NextRead(w.request)));
      w.(request := q, bot := if q.puller.None? then BotHolding(LastData(q)) else BotParking)
    case BotPark => w.(request := S.Next(w.request, S.ParkRead(true)), bot := BotParked)
    case BotReply =>
      var q := S.Next(w.completion, S.LookForRead(Reply(w.bot.data)));
      w.(completion := q, bot := if q.pusher.None? then BotReplied else BotSending)
    case BotSend => w.(completion := S.Next(w.completion, S.ParkWrite(true)), bot := BotReplied)
    case BotRaise => w.(pipe := P.Next(w.pipe, P.Raise(MISSION_SUCCEEDED)), bot := BotReading)
    case TripWrite(mission) =>
      var q := S.Next(w.request, S.LookForRead(Written(mission)));
      var w' := w.(request := q, missions := w.missions + [mission]);
      if q.pusher.None? then w'.(trip := TripSent, bot := BotHolding(LastData(q)))
      else w'.(trip := TripWriting)
    case TripPark => w.(request := S.Next(w.request, S.ParkWrite(true)), trip := TripSent)
    case TripAsk => Answered(w, P.Ask(TRIP_ASK), TripWaiting)
    case TripRead =>
      var q := S.Next(w.completion, S.LookForWrite(NextRead(w.completion)));
      if q.puller.None? && |LastData(q)| <= BUFFER_SIZE && w.missions != [] then
        var text := CText(AfterRead(seq(BUFFER_SIZE, _ => 0), LastData(q)));
        w.(completion := q, trip := TripIdle, results := w.results + [text],
           finished := w.finished + [Finish(|w.missions| - 1, w.left)])
      else
        w.(completion := q, trip := TripStuck)
    case Pipeline(op) => Answered(w, op, w.trip)
  }

  /** What AutoBot's ULONG looks like in memory, and what its IOCTL makes of it: the
      value of BotRaise, and of no other four bytes.  The session brings room for it and
      both programs read up to 250 bytes. */
  lemma RaisedInMemory(b: Bytes)
    requires |b| == 4
    ensures D.LittleEndian(b) == MISSION_SUCCEEDED <==> b == [10, 0, 0, 0]
    ensures TRIP_ASK.room == 4 && forall q :: NextRead(q).length == 250
  {
    hide D.LittleEndian;
    D.BytesRoundTrip(b);
    D.ValueRoundTrip(10);
    assert D.InMemory(10) == [10, 0, 0, 0];
  }

  // ----- The invariant, part by part

  ghost predicate NewIds(q: S.State) {
    forall i | 0 <= i < |q.pulled| :: q.pulled[i].id < |q.pulled|
  }

  /** missionRequest holds the missions sent, AutoBot's read and the session's write. */
  ghost predicate Requests(q: S.State, missions: seq<Bytes>, bot: Bot, trip: Trip) {
    && |q.pushed| == |missions| && NewIds(q)
    && (forall k | 0 <= k < |missions| :: IsText(missions[k]) && q.pushed[k] == Written(missions[k]))
    && (q.puller.Some? <==> bot.BotParking?)
    && (q.puller.Some? ==> q.puller.value.length == BUFFER_SIZE)
    && (if bot.BotParked? then |q.waiting| == 1 && q.waiting[0].length == BUFFER_SIZE else q.waiting == [])
    && (q.pusher.Some? <==> trip.TripWriting?)
    && (q.pusher.Some? ==> q.pusher.value < |q.pushed|)
    && (forall i | 0 <= i < |q.writes| :: q.writes[i] < |q.pushed|)
    && (forall i | 0 <= i < |q.handed| :: q.handed[i].write < |q.pushed|)
    && |q.pushed| == |q.handed| + |q.writes| + S.InFlight(q.pusher)
  }

  /** The mission that was the k-th to reach AutoBot. */
  function Reached(q: S.State, missions: seq<Bytes>, k: nat): Bytes
    requires k < |q.handed|
  {
    var no := q.handed[k].write;
    if no < |missions| then missions[no] else []
  }

  /** AutoBot has answered the missions in the order in which they reached it. */
  ghost predicate Replies(q: S.State, pushed: seq<Bytes>, missions: seq<Bytes>, bot: Bot) {
    && |q.handed| == |pushed| + (if bot.BotHolding? then 1 else 0)
    && (forall k | 0 <= k < |pushed| :: pushed[k] == Written(Response(Reached(q, missions, k))))
    && (bot.BotHolding? ==>
          bot.data == R.Truncate(Written(Reached(q, missions, |q.handed| - 1)), BUFFER_SIZE))
  }

  /** missionCompletion holds the responses not yet read, in order. */
  ghost predicate Completions(q: S.State, read: nat, bot: Bot) {
    && NewIds(q) && q.waiting == [] && q.puller.None?
    && (q.pusher.Some? <==> bot.BotSending?)
    && (q.pusher.Some? ==> q.pusher.value == |q.pushed| - 1)
    && |q.pushed| == read + |q.writes| + S.InFlight(q.pusher)
    && (forall i | 0 <= i < |q.writes| :: q.writes[i] == read + i)
  }

  /** Each finished session has read the next response. */
  ghost predicate Results(q: S.State, missions: seq<Bytes>, results: seq<Bytes>) {
    && |results| <= |q.handed|
    && (forall k | 0 <= k < |results| :: results[k] == Response(Reached(q, missions, k)))
  }

  ghost predicate Sessions(w: World) {
    && |w.finished| == |w.results|
    && |w.missions| == |w.results| + w.left + (if w.trip.TripIdle? then 0 else 1)
    && (forall k | 0 <= k < |w.finished| ::
          w.finished[k].session == k + w.finished[k].left && w.finished[k].left <= w.left)
    && (forall j, k | 0 <= j < k < |w.finished| :: w.finished[j].left <= w.finished[k].left)
  }

  /** Every session told of a signal was told of another raise, and every raise follows
      its response. */
  ghost predicate Signals(p: P.Pipe, read: nat, replies: nat, bot: Bot, trip: Trip) {
    && P.Good(p) && p.host.accepting
    && (forall i | 0 <= i < |p.raised| :: p.raised[i] == MISSION_SUCCEEDED)
    && |p.raised| + (if bot.BotSending? || bot.BotReplied? then 1 else 0) == replies
    && read + (if trip.TripNotified? then 1 else 0) <= P.TakenNo(p)
    && (trip.TripNotified? ==> trip.value == MISSION_SUCCEEDED)
    && p.host.waiting == (if trip.TripWaiting? then [TRIP_ASK] else [])
    && !trip.TripStuck?
  }

  /** Missions reach AutoBot in the order in which they were sent. */
  ghost predicate Fifo(q: S.State) {
    && (forall i | 0 <= i < |q.handed| :: q.handed[i].write == i)
    && (forall i | 0 <= i < |q.writes| :: q.writes[i] == |q.handed| + i)
    && (q.pusher.Some? ==> q.pusher.value == |q.handed| + |q.writes|)
  }

  ghost predicate Inv(w: World) {
    && Requests(w.request, w.missions, w.bot, w.trip)
    && Replies(w.request, w.completion.pushed, w.missions, w.bot)
    && Completions(w.completion, |w.results|, w.bot)
    && Results(w.request, w.missions, w.results)
    && Sessions(w)
    && Signals(w.pipe, |w.results|, |w.completion.pushed|, w.bot, w.trip)
    && (w.left == 0 ==> Fifo(w.request))
  }

  // ----- Every step keeps it

  lemma NewRead(q: S.State)
    requires NewIds(q) && q.puller.None?
    ensures S.Enabled(q, S.LookForWrite(NextRead(q)))
    ensures NewIds(S.Next(q, S.LookForWrite(NextRead(q))))
  {
  }

  /** The mission that reaches AutoBot last. */
  lemma ReachesLast(q: S.State, missions: seq<Bytes>)
    requires q.handed != [] && |q.pushed| == |missions|
    requires var h := q.handed[|q.handed| - 1];
             h.write < |q.pushed| && q.pushed[h.write] == Written(missions[h.write]) && h.read.length == BUFFER_SIZE
    ensures LastData(q) == R.Truncate(Written(Reached(q, missions, |q.handed| - 1)), BUFFER_SIZE)
  {
  }

  /** What has been handed over stays as it was. */
  lemma ReachedStays(q: S.State, q': S.State, missions: seq<Bytes>, missions': seq<Bytes>, k: nat)
    requires k < |q.handed| && q.handed <= q'.handed && q.handed[k].write < |missions| && missions <= missions'
    ensures Reached(q', missions', k) == Reached(q, missions, k)
  {
  }

  function AfterLook(q: S.State): S.State
    requires NewIds(q) && q.puller.None?
  {
    NewRead(q);
    S.Next(q, S.LookForWrite(NextRead(q)))
  }

  function BotAfterLook(q: S.State): Bot {
    if q.puller.None? then BotHolding(LastData(q)) else BotParking
  }

  lemma LookRequests(q: S.State, missions: seq<Bytes>, trip: Trip)
    requires Requests(q, missions, BotReading, trip)
    ensures Requests(AfterLook(q), missions, BotAfterLook(AfterLook(q)), trip)
    ensures Fifo(q) ==> Fifo(AfterLook(q))
    ensures q.handed <= AfterLook(q).handed
  {
    hide IsText, Written, LastData;
    NewRead(q);
  }

  lemma LookReplies(q: S.State, pushed: seq<Bytes>, missions: seq<Bytes>, results: seq<Bytes>, trip: Trip)
    requires Requests(q, missions, BotReading, trip) && Replies(q, pushed, missions, BotReading)
    requires Results(q, missions, results)
    ensures Replies(AfterLook(q), pushed, missions, BotAfterLook(AfterLook(q)))
    ensures Results(AfterLook(q), missions, results)
  {
    hide IsText, Written, Response, R.Truncate, LastData;
    var q' := AfterLook(q);
    NewRead(q);
    forall k | 0 <= k < |q.handed|
      ensures Reached(q', missions, k) == Reached(q, missions, k)
    {
      ReachedStays(q, q', missions, missions, k);
    }
    if q.writes != [] {
      ReachesLast(q', missions);
    }
  }

  lemma BotLookStep(w: World)
    requires Inv(w) && Enabled(w, BotLook)
    ensures Inv(Next(w, BotLook))
  {
    hide Requests, Replies, Results, Fifo, P.Good, S.Next, LastData, NewIds, Response;
    LookNew(w.request, w.missions, w.bot, w.trip);
    LookRequests(w.request, w.missions, w.trip);
    LookReplies(w.request, w.completion.pushed, w.missions, w.results, w.trip);
  }

  lemma LookNew(q: S.State, missions: seq<Bytes>, bot: Bot, trip: Trip)
    requires Requests(q, missions, bot, trip)
    ensures NewIds(q) && (q.puller.Some? <==> bot.BotParking?)
  {
  }

  lemma BotParkStep(w: World)
    requires Inv(w) && Enabled(w, BotPark)
    ensures Inv(Next(w, BotPark))
  {
    hide P.Good, IsText, Written, Response, R.Truncate;
  }

  lemma HeldIsText(w: World)
    requires Inv(w) && w.bot.BotHolding?
    ensures w.request.handed != [] && IsText(Reached(w.request, w.missions, |w.request.handed| - 1))
  {
  }

  lemma RequestsBot(q: S.State, missions: seq<Bytes>, bot: Bot, bot': Bot, trip: Trip)
    requires Requests(q, missions, bot, trip)
    requires !bot.BotParking? && !bot.BotParked? && !bot'.BotParking? && !bot'.BotParked?
    ensures Requests(q, missions, bot', trip)
  {
  }

  lemma BotReplyStep(w: World)
    requires Inv(w) && Enabled(w, BotReply)
    ensures Inv(Next(w, BotReply)) && Next(w, BotReply).bot == BotSending
  {
    hide P.Good, Reply, Requests, Results, Fifo, Response, Written, R.Truncate;
    HeldIsText(w);
    var mission := Reached(w.request, w.missions, |w.request.handed| - 1);
    ReplyToMission(mission);
    RequestsBot(w.request, w.missions, w.bot, BotSending, w.trip);
  }

  lemma BotSendStep(w: World)
    requires Inv(w) && Enabled(w, BotSend)
    ensures Inv(Next(w, BotSend))
  {
    hide P.Good, IsText, Written, Response, R.Truncate;
  }

  lemma BotRaiseStep(w: World)
    requires Inv(w) && Enabled(w, BotRaise)
    ensures Inv(Next(w, BotRaise))
  {
    hide P.Good, IsText, Written, Response, R.Truncate;
    P.TakenWasRaised(w.pipe);
    P.GoodStep(w.pipe, P.Raise(MISSION_SUCCEEDED));
    P.TakesNewer(w.pipe, P.Raise(MISSION_SUCCEEDED));
  }

  function AfterWrite(q: S.State, mission: Bytes): S.State
    requires q.pusher.None?
  {
    S.Next(q, S.LookForRead(Written(mission)))
  }

  function BotAfterWrite(q: S.State, bot: Bot): Bot {
    if q.pusher.None? then BotHolding(LastData(q)) else bot
  }

  function TripAfterWrite(q: S.State): Trip {
    if q.pusher.None? then TripSent else TripWriting
  }

  lemma WriteRequests(q: S.State, missions: seq<Bytes>, bot: Bot, mission: Bytes)
    requires Requests(q, missions, bot, TripIdle) && IsText(mission)
    ensures q.pusher.None?
    ensures var q' := AfterWrite(q, mission);
            && Requests(q', missions + [mission], BotAfterWrite(q', bot), TripAfterWrite(q'))
            && q.handed <= q'.handed && (q'.pusher.None? <==> q.waiting != [])
  {
    hide IsText, Written, LastData;
  }

  lemma WriteReplies(q: S.State, pushed: seq<Bytes>, missions: seq<Bytes>, results: seq<Bytes>, bot: Bot,
                     mission: Bytes)
    requires Requests(q, missions, bot, TripIdle) && Replies(q, pushed, missions, bot)
    requires Results(q, missions, results)
    ensures var q', missions' := AfterWrite(q, mission), missions + [mission];
            Replies(q', pushed, missions', BotAfterWrite(q', bot)) && Results(q', missions', results)
  {
    hide IsText, Written, Response, R.Truncate, LastData;
    var q', missions' := AfterWrite(q, mission), missions + [mission];
    forall k | 0 <= k < |q.handed|
      ensures Reached(q', missions', k) == Reached(q, missions, k)
    {
      ReachedStays(q, q', missions, missions', k);
    }
    if q.waiting != [] {
      ReachesLast(q', missions');
    }
  }

  /** A mission written directly to a parked read overtakes those that are parked. */
  predicate Overtakes(w: World, step: Step) {
    step.TripWrite? && w.request.waiting != [] && w.request.writes != []
  }

  lemma WriteFifo(w: World, mission: Bytes)
    requires Inv(w) && Enabled(w, TripWrite(mission)) && Fifo(w.request)
    ensures Fifo(AfterWrite(w.request, mission)) <==> !Overtakes(w, TripWrite(mission))
  {
    var q, q' := w.request, AfterWrite(w.request, mission);
    if Overtakes(w, TripWrite(mission)) {
      assert q'.handed[|q.handed|].write == |q.pushed|;
    }
  }

  lemma TripWriteStep(w: World, mission: Bytes)
    requires Inv(w) && Enabled(w, TripWrite(mission))
    ensures Inv(Next(w, TripWrite(mission)))
  {
    hide Replies, Results, Fifo, P.Good, S.Next, LastData, NewIds, Response, Written;
    WriteRequests(w.request, w.missions, w.bot, mission);
    WriteReplies(w.request, w.completion.pushed, w.missions, w.results, w.bot, mission);
    if w.left == 0 {
      NothingUnread(w);
      WriteFifo(w, mission);
    }
  }

  /** Until a session has left, the queue is empty when the next one opens. */
  lemma NothingUnread(w: World)
    requires Inv(w) && w.left == 0 && w.trip.TripIdle?
    ensures w.request.writes == []
  {
  }

  /** Parking a write delivers nothing. */
  lemma TripParkKeeps(w: World)
    requires Inv(w) && Enabled(w, TripPark)
    ensures var q := S.Next(w.request, S.ParkWrite(true));
            Replies(q, w.completion.pushed, w.missions, w.bot) && Results(q, w.missions, w.results)
  {
    hide P.Good, Requests, Completions, Sessions, Signals, Fifo, IsText, Written, Response, R.Truncate;
  }

  lemma TripParkStep(w: World)
    requires Inv(w) && Enabled(w, TripPark)
    ensures Inv(Next(w, TripPark))
  {
    hide P.Good, Replies, Completions, Results, IsText, Written, Response, R.Truncate, Reached;
    TripParkKeeps(w);
  }

  /** What the pipeline's own invariant says of the raises. */
  lemma TakenSucceeded(p: P.Pipe, p': P.Pipe)
    requires (forall i | 0 <= i < |p.raised| :: p.raised[i] == MISSION_SUCCEEDED)
    requires p'.taken.Some? && P.Genuine(p'.taken.value.signal, p.raised)
    ensures p'.taken.value.signal.value == MISSION_SUCCEEDED
  {
  }

  lemma AskSignals(p: P.Pipe, read: nat, replies: nat, bot: Bot)
    requires Signals(p, read, replies, bot, TripSent)
    ensures var p', out := P.Next(p, P.Ask(TRIP_ASK)), P.Added(p, P.Ask(TRIP_ASK));
            if P.Takes(p, P.Ask(TRIP_ASK)) then
              && |out| == 1 && out[0].Done?
              && Signals(p', read, replies, bot, TripNotified(out[0].value.value))
            else out == [] && Signals(p', read, replies, bot, TripWaiting)
  {
    hide P.Channels, P.InOrder, P.Observed, P.Next, P.Added, P.Genuine;
    var op := P.Ask(TRIP_ASK);
    P.GoodStep(p, op);
    P.TakesNewer(p, op);
    P.AskStep(p, TRIP_ASK);
    P.AskAnswers(p, TRIP_ASK);
    if P.Takes(p, op) {
      TakenSucceeded(p, P.Next(p, op));
    }
  }

  /** The stage that an operation of the bus leaves the session in. */
  function TripAfter(out: seq<H.Completion<P.Signal>>, trip: Trip): Trip {
    if out == [] then trip
    else if out[0].Done? then TripNotified(out[0].value.value)
    else TripIdle
  }

  lemma PipelineSignals(p: P.Pipe, op: P.Op, read: nat, replies: nat, bot: Bot, trip: Trip)
    requires Signals(p, read, replies, bot, trip)
    requires P.Enabled(p, op) && !op.Raise? && !op.Ask? && !op.CancelAsk?
    ensures var p', out := P.Next(p, op), P.Added(p, op);
            && Signals(p', read, replies, bot, TripAfter(out, trip))
            && (out == [] <==> !(op.Arrive? && trip.TripWaiting?))
            && (out != [] ==> |out| == 1 && (out[0].Done? <==> p.wire[0].Done?))
  {
    hide P.Channels, P.InOrder, P.Observed, P.Next, P.Added, P.Genuine;
    P.GoodStep(p, op);
    P.TakesNewer(p, op);
    P.WaitingStep(p, op);
    if op.Arrive? && trip.TripWaiting? {
      P.ArriveAnswers(p, TRIP_ASK);
      if P.Takes(p, op) {
        TakenSucceeded(p, P.Next(p, op));
      }
    } else {
      P.NobodyAnswered(p, op);
    }
  }

  lemma TripAskStep(w: World)
    requires Inv(w) && Enabled(w, TripAsk)
    ensures Inv(Next(w, TripAsk))
    ensures if P.Takes(w.pipe, P.Ask(TRIP_ASK)) then Next(w, TripAsk).trip.TripNotified?
            else Next(w, TripAsk).trip.TripWaiting?
    ensures Next(w, TripAsk).left == w.left
  {
    hide Replies, Completions, Results, Fifo, Signals, P.Next, P.Added, P.Takes;
    AskSignals(w.pipe, |w.results|, |w.completion.pushed|, w.bot);
    RequestsTrip(w.request, w.missions, w.bot, w.trip, Next(w, TripAsk).trip);
  }

  lemma RequestsTrip(q: S.State, missions: seq<Bytes>, bot: Bot, trip: Trip, trip': Trip)
    requires Requests(q, missions, bot, trip) && !trip.TripWriting? && !trip'.TripWriting?
    ensures Requests(q, missions, bot, trip')
  {
  }

  /** An operation of the bus leaves the session alone, or tells it of a signal, or
      makes it leave. */
  lemma PipelineStep(w: World, op: P.Op)
    requires Inv(w) && Enabled(w, Pipeline(op))
    ensures var w' := Next(w, Pipeline(op));
            && Inv(w')
            && w' == w.(pipe := P.Next(w.pipe, op), trip := w'.trip, left := w'.left)
            && if op.Arrive? && w.trip.TripWaiting? then
                 if w.pipe.wire[0].Done? then w'.trip.TripNotified? && w'.left == w.left
                 else w'.trip.TripIdle? && w'.left == w.left + 1
               else w'.trip == w.trip && w'.left == w.left
  {
    hide Requests, Replies, Completions, Results, Fifo, Signals, P.Next, P.Added, P.Takes;
    PipelineSignals(w.pipe, op, |w.results|, |w.completion.pushed|, w.bot, w.trip);
    if !w.trip.TripWriting? {
      forall trip: Trip | !trip.TripWriting?
        ensures Requests(w.request, w.missions, w.bot, trip)
      {
        RequestsTrip(w.request, w.missions, w.bot, w.trip, trip);
      }
    }
  }

  /** A response waits for every session that was told of a signal. */
  lemma ResponseWaits(w: World)
    requires Inv(w) && w.trip.TripNotified?
    ensures w.completion.writes != [] && w.completion.writes[0] == |w.results| < |w.completion.pushed|
    ensures |w.completion.pushed| <= |w.request.handed|
  {
    hide P.Good, Requests, Response, Written, Results;
    P.TakenWasRaised(w.pipe);
  }

  /** What a session reads is the text of the response. */
  lemma ReadsText(mission: Bytes)
    requires IsText(mission)
    ensures var data := R.Truncate(Written(Response(mission)), BUFFER_SIZE);
            && |data| <= BUFFER_SIZE
            && CText(AfterRead(seq(BUFFER_SIZE, _ => 0), data)) == Response(mission)
  {
    ResponseFits(mission);
    ReadLeavesText(seq(BUFFER_SIZE, _ => 0), Response(mission));
  }

  /** The read takes the first response off the queue. */
  lemma ReadCompletions(q: S.State, read: nat, bot: Bot, data: Bytes)
    requires Completions(q, read, bot) && q.writes != [] && q.writes[0] < |q.pushed| && q.pushed[q.writes[0]] == data
    ensures S.Enabled(q, S.LookForWrite(NextRead(q)))
    ensures var q' := AfterLook(q);
            && Completions(q', read + 1, bot) && q'.pushed == q.pushed && q'.puller.None?
            && LastData(q') == R.Truncate(data, BUFFER_SIZE)
  {
    NewRead(q);
  }

  lemma ReachedIsText(w: World, k: nat)
    requires Inv(w) && k < |w.request.handed|
    ensures IsText(Reached(w.request, w.missions, k))
  {
  }

  lemma TripReadStep(w: World)
    requires Inv(w) && Enabled(w, TripRead)
    ensures var w' := Next(w, TripRead);
            && Inv(w') && w.missions != [] && |w.results| < |w.request.handed|
            && w'.results == w.results + [Response(Reached(w.request, w.missions, |w.results|))]
            && w'.finished == w.finished + [Finish(|w.missions| - 1, w.left)]
            && w'.missions == w.missions && w'.left == w.left && w'.trip.TripIdle?
  {
    hide Requests, Fifo, Signals, S.Next, CText, AfterRead, Response, R.Truncate, LastData, Written, IsText, Reached;
    ResponseWaits(w);
    var mission := Reached(w.request, w.missions, |w.results|);
    ReachedIsText(w, |w.results|);
    ReadsText(mission);
    ReadCompletions(w.completion, |w.results|, w.bot, Written(Response(mission)));
    ReadSignals(w);
    RequestsTrip(w.request, w.missions, w.bot, w.trip, TripIdle);
  }

  lemma ReadSignals(w: World)
    requires Inv(w) && w.trip.TripNotified?
    ensures Signals(w.pipe, |w.results| + 1, |w.completion.pushed|, w.bot, TripIdle)
  {
    hide P.Good, Requests, Replies, Results;
  }

  lemma InvStep(w: World, step: Step)
    requires Inv(w) && Enabled(w, step)
    ensures Inv(Next(w, step))
  {
    hide Inv, Next;
    match step
    case BotLook => BotLookStep(w);
    case BotPark => BotParkStep(w);
    case BotReply => BotReplyStep(w);
    case BotSend => BotSendStep(w);
    case BotRaise => BotRaiseStep(w);
    case TripWrite(mission) => TripWriteStep(w, mission);
    case TripPark => TripParkStep(w);
    case TripAsk => TripAskStep(w);
    case TripRead => TripReadStep(w);
    case Pipeline(op) => PipelineStep(w, op);
  }

  // ----- Every run

  ghost predicate CanRun(w: World, steps: seq<Step>)
    decreases |steps|
  {
    steps == [] || (Enabled(w, steps[0]) && CanRun(Next(w, steps[0]), steps[1..]))
  }

  ghost function Exec(w: World, steps: seq<Step>): World
    requires CanRun(w, steps)
    decreases |steps|
  {
    if steps == [] then w else Exec(Next(w, steps[0]), steps[1..])
  }

  lemma {:induction false} InvRun(w: World, steps: seq<Step>)
    requires Inv(w) && CanRun(w, steps)
    ensures Inv(Exec(w, steps))
    decreases |steps|
  {
    hide Inv, Next, Enabled;
    if steps != [] {
      InvStep(w, steps[0]);
      InvRun(Next(w, steps[0]), steps[1..]);
    }
  }

  lemma InitInv()
    ensures Inv(INIT) && Fifo(INIT.request)
  {
    hide P.Good, IsText, Written, Response, R.Truncate, Reached;
    P.InitGood();
  }

  /** Mission protocol correctness over every run from a clean state, however the reads
      and writes of both programs interleave and whichever IOCTLs fail: the k-th result
      is the response to the k-th mission that reached AutoBot; no session that was told
      of a signal has to wait for its response; and the session that read the k-th
      result is number k plus the sessions that had left before it. */
  lemma EachTripReadsTheNextResponse(steps: seq<Step>)
    requires CanRun(INIT, steps)
    ensures var w := Exec(INIT, steps);
            && |w.finished| == |w.results| <= |w.request.handed| && !w.trip.TripStuck?
            && (forall k | 0 <= k < |w.results| ::
                  w.results[k] == Response(Reached(w.request, w.missions, k)))
            && (forall k | 0 <= k < |w.finished| ::
                  w.finished[k].session == k + w.finished[k].left < |w.missions|)
            && (w.trip.TripNotified? ==>
                  && w.trip.value == MISSION_SUCCEEDED && |w.results| < |w.request.handed|
                  && w.completion.writes != [] && w.completion.writes[0] < |w.completion.pushed|
                  && w.completion.pushed[w.completion.writes[0]] ==
                     Written(Response(Reached(w.request, w.missions, |w.results|))))
  {
    hide Inv, Next, Enabled, Response, Written;
    InitInv();
    InvRun(INIT, steps);
    NextResponse(Exec(INIT, steps));
  }

  lemma NextResponse(w: World)
    requires Inv(w)
    ensures |w.finished| == |w.results| <= |w.request.handed| && !w.trip.TripStuck?
    ensures forall k | 0 <= k < |w.results| :: w.results[k] == Response(Reached(w.request, w.missions, k))
    ensures forall k | 0 <= k < |w.finished| :: w.finished[k].session == k + w.finished[k].left < |w.missions|
    ensures w.trip.TripNotified? ==>
              && w.trip.value == MISSION_SUCCEEDED && |w.results| < |w.request.handed|
              && w.completion.writes != [] && w.completion.writes[0] < |w.completion.pushed|
              && w.completion.pushed[w.completion.writes[0]] ==
                 Written(Response(Reached(w.request, w.missions, |w.results|)))
  {
    hide P.Good, IsText, Response, Written;
    if w.trip.TripNotified? {
      ResponseWaits(w);
    }
  }

  /** In every run in which no session left early each one has read the response to its
      own mission. */
  lemma EachTripReadsItsResponse(steps: seq<Step>)
    requires CanRun(INIT, steps) && Exec(INIT, steps).left == 0
    ensures var w := Exec(INIT, steps);
            && |w.finished| == |w.results| <= |w.missions| <= |w.results| + 1
            && forall k | 0 <= k < |w.results| ::
                 w.finished[k].session == k && w.results[k] == Response(w.missions[k])
  {
    hide Inv, Next, Enabled, Response;
    InitInv();
    InvRun(INIT, steps);
    NoneLeft(Exec(INIT, steps));
    OwnResponses(Exec(INIT, steps));
  }

  lemma NoneLeft(w: World)
    requires Inv(w) && w.left == 0
    ensures Fifo(w.request)
  {
    hide P.Good, Requests, Replies, Completions, Results, Sessions, Signals, Fifo;
  }

  /** The missions have reached AutoBot in order, so the k-th result is that of mission
      k, and its reader is the session that many places on. */
  lemma OwnResponses(w: World)
    requires Inv(w) && Fifo(w.request)
    ensures |w.results| <= |w.missions| && |w.finished| == |w.results|
    ensures w.left == 0 ==> |w.missions| <= |w.results| + 1
    ensures forall k | 0 <= k < |w.results| ::
              && w.results[k] == Response(w.missions[k])
              && w.finished[k].session == k + w.finished[k].left && w.finished[k].left <= w.left
  {
    hide P.Good, IsText, Response, Written;
  }

  /** While missions reach AutoBot in order, they go on doing so exactly until one is
      handed directly to a read that is parked beside older missions. */
  lemma FifoExactly(w: World, step: Step)
    requires Inv(w) && Fifo(w.request) && Enabled(w, step)
    ensures Fifo(Next(w, step).request) <==> !Overtakes(w, step)
  {
    hide P.Good, Replies, Results, Completions, Sessions, Signals, IsText, Response;
    match step
    case TripWrite(mission) => WriteFifo(w, mission);
    case BotLook => LookRequests(w.request, w.missions, w.trip);
    case _ =>
  }

  ghost predicate NoOvertaking(w: World, steps: seq<Step>)
    requires CanRun(w, steps)
    decreases |steps|
  {
    steps == [] || (!Overtakes(w, steps[0]) && NoOvertaking(Next(w, steps[0]), steps[1..]))
  }

  lemma {:induction false} FifoRun(w: World, steps: seq<Step>)
    requires Inv(w) && Fifo(w.request) && CanRun(w, steps) && NoOvertaking(w, steps)
    ensures Inv(Exec(w, steps)) && Fifo(Exec(w, steps).request)
    decreases |steps|
  {
    hide Inv, Fifo, Next, Enabled, Overtakes;
    if steps != [] {
      InvStep(w, steps[0]);
      FifoExactly(w, steps[0]);
      FifoRun(Next(w, steps[0]), steps[1..]);
    }
  }

  /** Which sessions read a stale response: with no mission overtaken, every session
      that finishes reads the response to the mission as many sessions before its own
      as had left early until then; so its own exactly if none had. */
  lemma StaleByThoseThatLeft(steps: seq<Step>)
    requires CanRun(INIT, steps) && NoOvertaking(INIT, steps)
    ensures var w := Exec(INIT, steps);
            && |w.finished| == |w.results| <= |w.missions|
            && forall k | 0 <= k < |w.results| ::
                 && w.results[k] == Response(w.missions[k])
                 && w.finished[k].session == k + w.finished[k].left
                 && (w.finished[k].session == k <==> w.finished[k].left == 0)
  {
    hide Inv, Next, Enabled, Response, Fifo;
    InitInv();
    FifoRun(INIT, steps);
    OwnResponses(Exec(INIT, steps));
  }

  // ----- Which open sessions can finish

  /** AutoBot will raise again: it has a mission, or one can still reach it. */
  predicate BotAble(w: World) {
    || w.bot.BotHolding? || w.bot.BotSending? || w.bot.BotReplied?
    || (w.bot.BotReading? && (w.request.writes != [] || w.request.pusher.Some?))
  }

  predicate FailureNext(p: P.Pipe) {
    p.wire != [] && p.wire[0].Failed?
  }

  /** The session has been told of a signal, or a signal is under way or still to be
      raised, and if the session waits no failure is next on the wire. */
  predicate CanFinish(w: World) {
    || w.trip.TripNotified?
    || (&& !(w.trip.TripWaiting? && FailureNext(w.pipe))
        && (P.UnderWay(w.pipe) != [] || BotAble(w)))
  }

  ghost predicate Open(w: World) {
    Inv(w) && !w.trip.TripIdle? && CanFinish(w)
  }

  // ----- They do: each move brings the session closer

  function TripLeft(w: World): nat {
    match w.trip
    case TripWriting => 2
    case TripNotified(_) => 0
    case _ => 1
  }

  /** What AutoBot has yet to do for a signal. */
  function BotLeft(w: World): nat {
    if P.UnderWay(w.pipe) != [] then 0
    else match w.bot
      case BotReplied => 1
      case BotSending => 2
      case BotHolding(_) => 3
      case _ => 4
  }

  function DeviceHolds(w: World): nat {
    if w.pipe.dev.unread > 0 then 1 else 0
  }

  /** The step gets the session on without closing it. */
  ghost predicate Progress(w: World, w': World) {
    && Open(w') && w'.results == w.results && w'.finished == w.finished
    && w'.missions == w.missions && w'.left == w.left
    && (TripLeft(w') < TripLeft(w)
        || (TripLeft(w') == TripLeft(w)
            && (BotLeft(w') < BotLeft(w)
                || (BotLeft(w') == BotLeft(w)
                    && (DeviceHolds(w') < DeviceHolds(w)
                        || (DeviceHolds(w') == DeviceHolds(w) && |w'.pipe.wire| < |w.pipe.wire|))))))
  }

  lemma TripParkMoves(w: World)
    requires Open(w) && w.trip.TripWriting?
    ensures Enabled(w, TripPark) && Progress(w, Next(w, TripPark))
  {
    hide P.Good, P.UnderWay, Replies, Results, Completions, Sessions, Signals, Fifo, NewIds;
    TripParkStep(w);
  }

  lemma HeldFits(w: World)
    requires Inv(w) && w.bot.BotHolding?
    ensures |w.bot.data| <= BUFFER_SIZE
  {
    hide P.Good, Requests, Results, Completions, Sessions, Signals, Fifo;
  }

  lemma BotRaiseMoves(w: World)
    requires Open(w) && (w.trip.TripSent? || w.trip.TripWaiting?) && P.UnderWay(w.pipe) == [] && w.bot.BotReplied?
    ensures Progress(w, Next(w, BotRaise))
  {
    hide P.InOrder, P.Observed, P.UnderWay, P.Next, Requests, Replies, Results, Completions, Sessions, Fifo;
    BotRaiseStep(w);
    P.RaisedIsUnderWay(w.pipe, MISSION_SUCCEEDED);
  }

  lemma BotMoves(w: World) returns (step: Step)
    requires Open(w) && (w.trip.TripSent? || w.trip.TripWaiting?) && P.UnderWay(w.pipe) == []
    ensures Enabled(w, step) && Progress(w, Next(w, step))
  {
    hide P.Good, P.UnderWay, P.Next, Results, Sessions, Fifo, Replies, Reply, Written, Response;
    if w.bot.BotHolding? {
      HeldFits(w);
    }
    match w.bot
    case BotReplied =>
      step := BotRaise;
      BotRaiseMoves(w);
    case BotSending =>
      step := BotSend;
      BotSendStep(w);
    case BotHolding(data) =>
      step := BotReply;
      BotReplyStep(w);
    case _ =>
      step := BotLook;
      NewRead(w.request);
      BotLookStep(w);
  }

  lemma TripAskMoves(w: World)
    requires Open(w) && w.trip.TripSent? && w.pipe.host.unread > 0
    ensures Enabled(w, TripAsk) && Progress(w, Next(w, TripAsk))
  {
    hide P.Good, P.UnderWay, P.Next, P.Added, Requests, Replies, Results, Completions, Sessions, Signals, Fifo;
    TripAskStep(w);
  }

  lemma SubmitMoves(w: World)
    requires Open(w) && (w.trip.TripSent? || w.trip.TripWaiting?) && w.pipe.dev.unread > 0
    ensures Enabled(w, Pipeline(P.Submit(P.URB))) && Progress(w, Next(w, Pipeline(P.Submit(P.URB))))
  {
    hide P.UnderWay, P.Next, P.Added, Requests, Replies, Results, Completions, Sessions, Fifo;
    P.SubmitSends(w.pipe);
    PipelineStep(w, P.Submit(P.URB));
  }

  lemma ArriveMoves(w: World)
    requires Open(w) && (w.trip.TripSent? || w.trip.TripWaiting?)
    requires w.pipe.host.unread == 0 && w.pipe.wire != [] && P.UnderWay(w.pipe) != []
    ensures Enabled(w, Pipeline(P.Arrive)) && Progress(w, Next(w, Pipeline(P.Arrive)))
  {
    hide P.UnderWay, P.Next, P.Added, Requests, Replies, Results, Completions, Sessions, Fifo;
    P.ArriveReaches(w.pipe);
    PipelineStep(w, P.Arrive);
  }

  /** Where the signals under way can be. */
  lemma SignalSomewhere(w: World)
    requires Open(w) && P.UnderWay(w.pipe) != []
    ensures w.pipe.host.unread > 0 || w.pipe.dev.unread > 0 || w.pipe.wire != []
    ensures w.pipe.host.unread > 0 ==> !w.trip.TripWaiting?
  {
    hide Requests, Replies, Results, Completions, Sessions, Fifo;
  }

  /** Some step gets the session on, or closes it. */
  lemma NextMove(w: World) returns (step: Step)
    requires Open(w)
    ensures Enabled(w, step)
    ensures Progress(w, Next(w, step))
            || (step == TripRead && Next(w, step).trip.TripIdle? && Next(w, step).missions == w.missions
                && Next(w, step).left == w.left && |w.results| < |w.request.handed| && w.missions != []
                && Next(w, step).finished == w.finished + [Finish(|w.missions| - 1, w.left)]
                && Next(w, step).results == w.results + [Response(Reached(w.request, w.missions, |w.results|))])
  {
    hide P.Good, P.UnderWay, P.Next, P.Added, P.Enabled, Progress, Next, Response, Requests, Replies, Results,
         Sessions, Fifo;
    if w.trip.TripNotified? {
      TripReadReady(w);
      TripReadStep(w);
      step := TripRead;
    } else if w.trip.TripWriting? {
      TripParkMoves(w);
      step := TripPark;
    } else if P.UnderWay(w.pipe) == [] {
      step := BotMoves(w);
    } else {
      SignalSomewhere(w);
      if w.pipe.host.unread > 0 {
        TripAskMoves(w);
        step := TripAsk;
      } else if w.pipe.dev.unread > 0 {
        SubmitMoves(w);
        step := Pipeline(P.Submit(P.URB));
      } else {
        ArriveMoves(w);
        step := Pipeline(P.Arrive);
      }
    }
  }

  lemma TripReadReady(w: World)
    requires Inv(w) && w.trip.TripNotified?
    ensures Enabled(w, TripRead)
  {
    hide P.Good, Requests, Replies, Results, Sessions, Fifo;
    NewRead(w.completion);
  }

  lemma RunOne(w: World, step: Step, steps: seq<Step>)
    requires Enabled(w, step) && CanRun(Next(w, step), steps)
    ensures CanRun(w, [step] + steps) && Exec(w, [step] + steps) == Exec(Next(w, step), steps)
  {
    assert ([step] + steps)[1..] == steps;
  }

  /** From every such world some continuation finishes the session. */
  lemma {:induction false} OpenSessionFinishes(w: World) returns (steps: seq<Step>)
    requires Open(w)
    ensures CanRun(w, steps)
    ensures var w' := Exec(w, steps);
            && Inv(w') && w'.trip.TripIdle? && w'.missions == w.missions && w'.left == w.left
            && |w'.results| == |w.results| + 1 && w.missions != []
            && w'.finished == w.finished + [Finish(|w.missions| - 1, w.left)]
    decreases TripLeft(w), BotLeft(w), DeviceHolds(w), |w.pipe.wire|
  {
    hide Inv, Enabled, Next, CanFinish, TripLeft, BotLeft, DeviceHolds, P.UnderWay;
    var step := NextMove(w);
    if Progress(w, Next(w, step)) {
      var rest := OpenSessionFinishes(Next(w, step));
      RunOne(w, step, rest);
      steps := [step] + rest;
    } else {
      InvStep(w, step);
      assert CanRun(Next(w, step), []);
      RunOne(w, step, []);
      steps := [step] + [];
    }
  }

  // ----- ... and no others

  /** The session has left, or can no longer finish. */
  ghost predicate Over(w: World) {
    Inv(w) && (w.trip.TripIdle? || !CanFinish(w))
  }

  /** The steps on the queues make nothing possible that was not. */
  lemma QueueStep(w: World, step: Step)
    requires Inv(w) && Enabled(w, step)
    requires step.BotLook? || step.BotPark? || step.BotReply? || step.BotSend? || step.TripPark?
    ensures var w' := Next(w, step);
            && w'.results == w.results && w'.missions == w.missions && w'.trip.TripIdle? == w.trip.TripIdle?
            && (CanFinish(w') ==> CanFinish(w))
  {
    hide P.Good, P.UnderWay, Replies, Results, Completions, Sessions, Signals, Fifo, NewIds, IsText;
  }

  /** A failure next on the wire stays next until it arrives. */
  lemma FailureStays(p: P.Pipe, op: P.Op)
    requires P.Enabled(p, op) && FailureNext(p) && !op.Arrive?
    ensures FailureNext(P.Next(p, op))
  {
  }

  lemma NothingComes(p: P.Pipe, op: P.Op)
    requires P.Channels(p) && P.Enabled(p, op) && !op.Raise? && P.UnderWay(p) == []
    ensures P.UnderWay(P.Next(p, op)) == [] && !P.Takes(p, op)
  {
    P.UnderWayStep(p, op);
  }

  lemma OverPipeline(w: World, op: P.Op)
    requires Over(w) && !w.trip.TripIdle? && Enabled(w, Pipeline(op))
    ensures var w' := Next(w, Pipeline(op));
            Over(w') && w'.results == w.results && w'.missions == w.missions
  {
    hide P.Next, P.Added, P.UnderWay, P.InOrder, P.Observed, Requests, Replies, Results, Completions, Sessions, Fifo;
    PipelineStep(w, op);
    if w.trip.TripWaiting? && FailureNext(w.pipe) {
      if !op.Arrive? {
        FailureStays(w.pipe, op);
      }
    } else {
      NothingComes(w.pipe, op);
    }
  }

  lemma OverAsk(w: World)
    requires Over(w) && !w.trip.TripIdle? && Enabled(w, TripAsk)
    ensures Over(Next(w, TripAsk)) && Next(w, TripAsk).results == w.results && Next(w, TripAsk).missions == w.missions
  {
    hide P.Next, P.Added, P.UnderWay, P.InOrder, P.Observed, Requests, Replies, Results, Completions, Sessions, Fifo;
    TripAskStep(w);
    NothingComes(w.pipe, P.Ask(TRIP_ASK));
  }

  lemma OverRaise(w: World)
    requires Over(w) && Enabled(w, BotRaise)
    ensures Over(Next(w, BotRaise))
    ensures Next(w, BotRaise).results == w.results && Next(w, BotRaise).missions == w.missions
  {
    hide P.Next, P.UnderWay, P.InOrder, P.Observed, Requests, Replies, Results, Completions, Sessions, Fifo;
    BotRaiseStep(w);
    P.RaisedIsUnderWay(w.pipe, MISSION_SUCCEEDED);
  }

  lemma OverIdle(w: World, op: P.Op)
    requires Inv(w) && w.trip.TripIdle? && Enabled(w, Pipeline(op))
    ensures var w' := Next(w, Pipeline(op));
            Over(w') && w'.results == w.results && w'.missions == w.missions
  {
    hide P.Good, P.Next, P.Added, P.UnderWay, Requests, Replies, Results, Completions, Sessions, Signals, Fifo;
    PipelineStep(w, op);
  }

  lemma OverStep(w: World, step: Step)
    requires Over(w) && Enabled(w, step) && !step.TripWrite?
    ensures Over(Next(w, step)) && Next(w, step).results == w.results && Next(w, step).missions == w.missions
  {
    hide P.Next, P.Added, P.UnderWay, Inv, Next, CanFinish;
    match step
    case Pipeline(op) => if w.trip.TripIdle? { OverIdle(w, op); } else { OverPipeline(w, op); }
    case TripAsk => OverAsk(w);
    case BotRaise => OverRaise(w);
    case TripRead => NotNotified(w);
    case _ =>
      InvStep(w, step);
      QueueStep(w, step);
  }

  lemma NotNotified(w: World)
    requires !CanFinish(w)
    ensures !w.trip.TripNotified?
  {
  }

  /** Opening a session is the only step that adds a mission. */
  lemma MissionsGrow(w: World, step: Step)
    requires Enabled(w, step)
    ensures |Next(w, step).missions| == |w.missions| + if step.TripWrite? then 1 else 0
  {
    hide P.Next, P.Added, S.Next;
  }

  lemma {:induction false} MissionsRun(w: World, steps: seq<Step>)
    requires CanRun(w, steps)
    ensures |w.missions| <= |Exec(w, steps).missions|
    decreases |steps|
  {
    hide Next, Enabled;
    if steps != [] {
      MissionsGrow(w, steps[0]);
      MissionsRun(Next(w, steps[0]), steps[1..]);
    }
  }

  lemma {:induction false} OverRun(w: World, steps: seq<Step>)
    requires Over(w) && CanRun(w, steps) && |Exec(w, steps).missions| == |w.missions|
    ensures Exec(w, steps).results == w.results
    decreases |steps|
  {
    hide Over, Next, Enabled;
    if steps != [] {
      MissionsGrow(w, steps[0]);
      MissionsRun(Next(w, steps[0]), steps[1..]);
      OverStep(w, steps[0]);
      OverRun(Next(w, steps[0]), steps[1..]);
    }
  }

  /** In every reachable world with an open session: some continuation in which no other
      session opens finishes it if and only if it has been told of a signal, or a signal
      is under way or AutoBot can still come to raise one, and no failure is next on the
      wire while the session waits. */
  lemma FinishesExactly(before: seq<Step>)
    requires CanRun(INIT, before) && !Exec(INIT, before).trip.TripIdle?
    ensures var w := Exec(INIT, before);
            (exists steps :: CanRun(w, steps) && |Exec(w, steps).missions| == |w.missions|
                             && |Exec(w, steps).results| > |w.results|)
            <==> CanFinish(w)
  {
    hide Inv, Next, Enabled, CanFinish;
    var w := Exec(INIT, before);
    InitInv();
    InvRun(INIT, before);
    if CanFinish(w) {
      var steps := OpenSessionFinishes(w);
      assert CanRun(w, steps) && |Exec(w, steps).results| > |w.results|;
    } else {
      forall steps | CanRun(w, steps) && |Exec(w, steps).missions| == |w.missions|
        ensures Exec(w, steps).results == w.results
      {
        OverRun(w, steps);
      }
    }
  }

  /** The mission in progress has not reached AutoBot, and its write and AutoBot's read
      are both parked or committed to park: each has missed the other. */
  predicate Stranded(w: World) {
    && (w.request.pusher.Some? || w.request.writes != [])
    && (w.request.puller.Some? || w.request.waiting != [])
  }

  /** AutoBot has raised the signal of the session in progress. */
  predicate Raised(w: World) {
    |w.pipe.raised| == |w.results| + 1
  }

  /** Until a session has left, the sessions have been told of every signal taken. */
  ghost predicate ToldAll(w: World) {
    w.left == 0 ==> P.TakenNo(w.pipe) == |w.results| + if w.trip.TripNotified? then 1 else 0
  }

  lemma RaisedBound(w: World)
    requires Inv(w)
    ensures |w.pipe.raised| <= |w.missions|
    ensures |w.missions| == |w.results| + w.left + if w.trip.TripIdle? then 0 else 1
  {
    hide P.Good, IsText, Written, Response, Reached, Results, Completions, Fifo;
  }

  /** Only an IOCTL made or a URB that arrives can tell a session of a signal. */
  lemma ToldAllStep(w: World, step: Step)
    requires Inv(w) && ToldAll(w) && Enabled(w, step)
    ensures ToldAll(Next(w, step))
  {
    hide P.Next, P.Added, P.UnderWay, P.Channels, P.InOrder, P.Observed, Requests, Replies, Results, Completions,
         Sessions, Fifo, S.Next, LastData;
    RaisedBound(w);
    match step
    case TripAsk =>
      TripAskStep(w);
      P.TakesNewer(w.pipe, P.Ask(TRIP_ASK));
    case Pipeline(op) =>
      PipelineStep(w, op);
      P.TakesNewer(w.pipe, op);
    case BotRaise => P.TakesNewer(w.pipe, P.Raise(MISSION_SUCCEEDED));
    case TripRead => TripReadStep(w);
    case _ =>
  }

  lemma {:induction false} ToldAllRun(w: World, steps: seq<Step>)
    requires Inv(w) && ToldAll(w) && CanRun(w, steps)
    ensures Inv(Exec(w, steps)) && ToldAll(Exec(w, steps))
    decreases |steps|
  {
    hide Inv, ToldAll, Next, Enabled;
    if steps != [] {
      InvStep(w, steps[0]);
      ToldAllStep(w, steps[0]);
      ToldAllRun(Next(w, steps[0]), steps[1..]);
    }
  }

  /** As long as no session has left, that is: its mission is not stranded, its signal,
      once raised, is not lost, and no failure is next while it waits. */
  lemma FinishesUnlessStranded(before: seq<Step>)
    requires CanRun(INIT, before)
    requires var w := Exec(INIT, before); w.left == 0 && !w.trip.TripIdle? && !w.trip.TripNotified?
    ensures var w := Exec(INIT, before);
            CanFinish(w) <==>
              && !Stranded(w)
              && (Raised(w) ==> P.FreshestKept(w.pipe))
              && !(w.trip.TripWaiting? && FailureNext(w.pipe))
  {
    hide Inv, Next, Enabled, CanFinish, Stranded;
    InitInv();
    ToldAllRun(INIT, before);
    UnlessStranded(Exec(INIT, before));
  }

  lemma UnlessStranded(w: World)
    requires Inv(w) && ToldAll(w) && w.left == 0 && !w.trip.TripIdle? && !w.trip.TripNotified?
    ensures CanFinish(w) <==>
            && !Stranded(w)
            && (Raised(w) ==> P.FreshestKept(w.pipe))
            && !(w.trip.TripWaiting? && FailureNext(w.pipe))
  {
    hide P.Good, P.UnderWay, P.FreshestKept, Fifo, Results, Completions, NewIds, IsText, Written, Response, R.Truncate,
         Reached;
    P.TakenWasRaised(w.pipe);
    P.SignalsAfterTaken(w.pipe);
  }

  // ----- Runs that show these cases

  lemma {:induction false} RunConcat(w: World, a: seq<Step>, b: seq<Step>)
    requires CanRun(w, a) && CanRun(Exec(w, a), b)
    ensures CanRun(w, a + b) && Exec(w, a + b) == Exec(Exec(w, a), b)
    decreases |a|
  {
    hide Next, Enabled;
    if a == [] {
      assert a + b == b;
    } else {
      RunConcat(Next(w, a[0]), a[1..], b);
      assert (a + b)[1..] == a[1..] + b;
    }
  }

  /** For every mission its session can run to its end from the clean state. */
  lemma OneTrip(mission: Bytes) returns (steps: seq<Step>)
    requires IsText(mission)
    ensures CanRun(INIT, steps)
    ensures Exec(INIT, steps).missions == [mission] && Exec(INIT, steps).results == [Response(mission)]
  {
    hide Inv, Response;
    var w := Next(INIT, TripWrite(mission));
    InitInv();
    InvStep(INIT, TripWrite(mission));
    var rest := OpenSessionFinishes(w);
    RunOne(INIT, TripWrite(mission), rest);
    steps := [TripWrite(mission)] + rest;
    OwnResult(Exec(w, rest));
  }

  lemma OwnResult(w: World)
    requires Inv(w) && w.left == 0 && |w.missions| == |w.results| == 1
    ensures w.results == [Response(w.missions[0])]
  {
    hide Inv, Fifo, Response;
    NoneLeft(w);
    OwnResponses(w);
  }

  /** A mission and AutoBot's read can miss each other, and then the session never
      finishes. */
  lemma MissionStranded(mission: Bytes) returns (steps: seq<Step>)
    requires IsText(mission)
    ensures CanRun(INIT, steps)
    ensures var w := Exec(INIT, steps); w.left == 0 && w.trip == TripSent && Stranded(w) && !CanFinish(w)
  {
    var w1 := Next(INIT, BotLook);
    var w2 := Next(w1, TripWrite(mission));
    var w3 := Next(w2, BotPark);
    var w4 := Next(w3, TripPark);
    assert CanRun(w4, []);
    RunOne(w3, TripPark, []);
    RunOne(w2, BotPark, [TripPark] + []);
    RunOne(w1, TripWrite(mission), [BotPark] + ([TripPark] + []));
    RunOne(INIT, BotLook, [TripWrite(mission)] + ([BotPark] + ([TripPark] + [])));
    steps := [BotLook] + ([TripWrite(mission)] + ([BotPark] + ([TripPark] + [])));
  }

  lemma HandedGrows(w: World, step: Step)
    requires Enabled(w, step)
    ensures w.request.handed <= Next(w, step).request.handed
  {
    hide P.Next, P.Added;
  }

  lemma {:induction false} HandedRun(w: World, steps: seq<Step>)
    requires CanRun(w, steps)
    ensures w.request.handed <= Exec(w, steps).request.handed
    decreases |steps|
  {
    hide Next, Enabled;
    if steps != [] {
      HandedGrows(w, steps[0]);
      HandedRun(Next(w, steps[0]), steps[1..]);
    }
  }

  /** AutoBot's parked read gets the first mission. */
  lemma FirstReaches(first: Bytes) returns (steps: seq<Step>)
    requires IsText(first)
    ensures CanRun(INIT, steps)
    ensures var w := Exec(INIT, steps);
            && w.pipe == P.INIT && w.trip == TripSent && w.bot.BotHolding? && w.missions == [first] && w.left == 0
            && w.results == [] && w.finished == [] && |w.request.handed| == 1 && w.request.handed[0].write == 0
  {
    hide Written, R.Truncate;
    var w1 := Next(INIT, BotLook);
    var w2 := Next(w1, BotPark);
    var w3 := Next(w2, TripWrite(first));
    assert CanRun(w3, []);
    RunOne(w2, TripWrite(first), []);
    RunOne(w1, BotPark, [TripWrite(first)] + []);
    RunOne(INIT, BotLook, [BotPark] + ([TripWrite(first)] + []));
    steps := [BotLook] + ([BotPark] + ([TripWrite(first)] + []));
  }

  /** A session leaves: the reader's URB is submitted to the sleeping device, and its
      failure ends the IOCTL. */
  lemma SessionLeaves(w: World) returns (steps: seq<Step>)
    requires w.pipe == P.INIT && w.trip == TripSent
    ensures CanRun(w, steps)
    ensures var w' := Exec(w, steps); w' == w.(pipe := w'.pipe, trip := TripIdle, left := w.left + 1)
  {
    hide P.Next, P.Added;
    var p1, p2, p3 := P.SleepFailsIoctl(TRIP_ASK);
    var w1 := Next(w, Pipeline(P.Sleep));
    var w2 := Next(w1, TripAsk);
    var w3 := Next(w2, Pipeline(P.Submit(P.URB)));
    var w4 := Next(w3, Pipeline(P.Arrive));
    assert CanRun(w4, []);
    RunOne(w3, Pipeline(P.Arrive), []);
    RunOne(w2, Pipeline(P.Submit(P.URB)), [Pipeline(P.Arrive)] + []);
    steps := [Pipeline(P.Submit(P.URB))] + ([Pipeline(P.Arrive)] + []);
    RunOne(w1, TripAsk, steps);
    steps := [TripAsk] + steps;
    RunOne(w, Pipeline(P.Sleep), steps);
    steps := [Pipeline(P.Sleep)] + steps;
  }

  lemma FirstLeaves(first: Bytes) returns (steps: seq<Step>)
    requires IsText(first)
    ensures CanRun(INIT, steps)
    ensures var w := Exec(INIT, steps);
            && w.left == 1 && w.trip == TripIdle && w.bot.BotHolding? && w.missions == [first] && w.results == []
            && w.finished == [] && |w.request.handed| == 1 && w.request.handed[0].write == 0
  {
    hide Next, Enabled;
    var reaches := FirstReaches(first);
    var leaves := SessionLeaves(Exec(INIT, reaches));
    RunConcat(INIT, reaches, leaves);
    steps := reaches + leaves;
  }

  /** Then the next session reads the response to that mission, not to its own. */
  lemma StaleHappens(first: Bytes, second: Bytes) returns (steps: seq<Step>)
    requires IsText(first) && IsText(second)
    ensures CanRun(INIT, steps)
    ensures var w := Exec(INIT, steps);
            w.missions == [first, second] && w.results == [Response(first)] && w.finished == [Finish(1, 1)]
  {
    hide Inv, Response, P.Next, P.UnderWay;
    steps := FirstLeaves(first);
    var w := Exec(INIT, steps);
    InitInv();
    InvRun(INIT, steps);
    Writable(w);
    var w' := Next(w, TripWrite(second));
    InvStep(w, TripWrite(second));
    var rest := OpenSessionFinishes(w');
    HandedGrows(w, TripWrite(second));
    HandedRun(w', rest);
    RunOne(w, TripWrite(second), rest);
    RunConcat(INIT, steps, [TripWrite(second)] + rest);
    steps := steps + ([TripWrite(second)] + rest);
    NextResponse(Exec(w', rest));
  }

  lemma Writable(w: World)
    requires Inv(w) && w.trip.TripIdle?
    ensures w.request.pusher.None? && (w.bot.BotHolding? ==> w.request.waiting == [])
  {
  }
}
