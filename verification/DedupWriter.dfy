/**
 The dedup-event writer of the bridge engine (bridge_engine.py): producers admit events under a lock, one
 thread takes them off an unbounded queue and stores them in batches, and `stop` closes admission and queues
 a sentinel. A run is any interleaving of the lock-protected sections and of the writer's queue operations.
 */
module DedupWriter {
  import opened Wrappers

  type Event = int
  type Handler = int

  /** Where the writer thread stands; `to` is the handler it read when it began. */
  datatype Writer =
    | NotStarted
    | Starting
    | Waiting(to: Option<Handler>)
    | Filling(to: Option<Handler>, batch: seq<Event>)
    | Storing(to: Option<Handler>, batch: seq<Event>, stopping: bool)
    | Done(to: Option<Handler>)

  datatype Batch = Batch(to: Option<Handler>, events: seq<Event>)

  /** A None in the queue is the sentinel. The last three fields record the past: the admitted events, the
      handler that each was admitted for, and the batches. */
  datatype Engine = Engine(
    handler: Option<Handler>, stopped: bool, running: bool, thread: bool, queue: seq<Option<Event>>, writer: Writer,
    admitted: seq<Event>, owners: seq<Handler>, handed: seq<Batch>)

  const START := Engine(None, false, false, false, [], NotStarted, [], [], [])

  datatype Step = Record(e: Event) | SetHandler(h: Option<Handler>) | Stop | Begin | Get | GetNowait | Store | Joined

  predicate Enabled(s: Engine, a: Step) {
    match a
    case Begin => s.writer.Starting?
    case Get => s.writer.Waiting? && s.queue != []
    case GetNowait => s.writer.Filling?
    case Store => s.writer.Storing?
    case Joined => s.writer.Done?
    case _ => true
  }

  function Recorded(s: Engine, e: Event): Engine {
    if s.stopped || s.handler.None? then s
    else s.(queue := s.queue + [Some(e)], admitted := s.admitted + [e], owners := s.owners + [s.handler.value])
  }

  /** On a stopped bridge this raises an error and changes nothing. */
  function Attached(s: Engine, h: Option<Handler>): Engine {
    if s.stopped then s
    else if h.Some? && !s.running then s.(handler := h, running := true, thread := true, writer := Starting)
    else s.(handler := h)
  }

  function Stopped(s: Engine): Engine {
    if s.stopped then s
    else s.(stopped := true, running := false, queue := if s.thread then s.queue + [None] else s.queue)
  }

  function Taken(s: Engine): Engine
    requires s.writer.Waiting? && s.queue != []
  {
    s.(queue := s.queue[1..],
       writer := if s.queue[0].None? then Done(s.writer.to) else Filling(s.writer.to, [s.queue[0].value]))
  }

  function Filled(s: Engine): Engine
    requires s.writer.Filling?
  {
    if s.queue == [] then s.(writer := Storing(s.writer.to, s.writer.batch, false))
    else if s.queue[0].None? then s.(queue := s.queue[1..], writer := Storing(s.writer.to, s.writer.batch, true))
    else s.(queue := s.queue[1..], writer := Filling(s.writer.to, s.writer.batch + [s.queue[0].value]))
  }

  function Handed(s: Engine): Engine
    requires s.writer.Storing?
  {
    s.(handed := s.handed + [Batch(s.writer.to, s.writer.batch)],
       writer := if s.writer.stopping then Done(s.writer.to) else Waiting(s.writer.to))
  }

  function Next(s: Engine, a: Step): Engine
    requires Enabled(s, a)
  {
    match a
    case Record(e) => Recorded(s, e)
    case SetHandler(h) => Attached(s, h)
    case Stop => Stopped(s)
    case Begin => s.(writer := Waiting(s.handler))
    case Get => Taken(s)
    case GetNowait => Filled(s)
    case Store => Handed(s)
    case Joined => s.(thread := false)
  }

  predicate Leads(s: Engine, run: seq<Step>, s': Engine)
    decreases |run|
  {
    if run == [] then s == s' else Enabled(s, run[0]) && Leads(Next(s, run[0]), run[1..], s')
  }

  /** The engine object, with its lock-protected sections and the writer's operations. */
  class BridgeEngine {
    var handler: Option<Handler>
    var stopped: bool
    var running: bool
    var thread: bool
    var queue: seq<Option<Event>>
    var writer: Writer
    ghost var admitted: seq<Event>
    ghost var owners: seq<Handler>
    ghost var handed: seq<Batch>

    ghost function View(): Engine
      reads this
    {
      Engine(handler, stopped, running, thread, queue, writer, admitted, owners, handed)
    }

    constructor ()
      ensures View() == START
    {
      handler, stopped, running, thread, queue, writer := None, false, false, false, [], NotStarted;
      admitted, owners, handed := [], [], [];
    }

    /** `_record_dedup_event` */
    method RecordDedupEvent(e: Event)
      modifies this
      ensures View() == Next(old(View()), Record(e))
    {
      if stopped {
        return;
      }
      if handler != None {
        queue := queue + [Some(e)];
        admitted, owners := admitted + [e], owners + [handler.value];
      }
    }

    /** `set_sqlite_handler` */
    method SetSqliteHandler(h: Option<Handler>) returns (ok: bool)
      modifies this
      ensures View() == Next(old(View()), SetHandler(h)) && ok == !old(stopped)
    {
      if stopped {
        return false;
      }
      handler := h;
      if h != None && !running {
        running := true;
        thread, writer := true, Starting;
      }
      ok := true;
    }

    method StopAdmission()
      modifies this
      ensures View() == Next(old(View()), Stop)
    {
      if !stopped {
        stopped := true;
        running := false;
        if thread {
          queue := queue + [None];
        }
      }
    }

    /** The inner loop of `_sqlite_dedup_writer` once admission is closed: take events up to the sentinel. */
    method FillBatch(first: Event) returns (batch: seq<Event>)
      requires EndsOnce(queue)
      modifies this`queue
      ensures queue == [] && batch == [first] + Events(old(queue))
    {
      batch := [first];
      var stopping := false;
      while !stopping
        invariant stopping ==> queue == []
        invariant stopping || EndsOnce(queue)
        invariant batch + Events(queue) == [first] + Events(old(queue))
        decreases !stopping, |queue|
      {
        var evt := queue[0];
        TakeOne(batch, queue);
        queue := queue[1..];
        if evt == None {
          stopping := true;
        } else {
          batch := batch + [evt.value];
        }
      }
    }

    /** `_sqlite_dedup_writer` once admission is closed: whatever is left goes out as one last batch. */
    method FinishWriting()
      requires writer.Waiting? && EndsOnce(queue) && admitted == AllEvents(handed) + Events(queue)
      modifies this`queue, this`writer, this`handed
      ensures queue == [] && writer == Done(old(writer.to)) && AllEvents(handed) == admitted
      ensures handed == old(handed) + if old(queue[0]).None? then [] else [Batch(old(writer.to), Events(old(queue)))]
    {
      var evt := queue[0];
      queue := queue[1..];
      if evt != None {
        var batch := FillBatch(evt.value);
        AllEventsAppend(handed, Batch(writer.to, batch));
        handed := handed + [Batch(writer.to, batch)];
      }
      writer := Done(writer.to);
    }
  }

  // ---------------------------------------------------------------- the invariant

  function Events(queue: seq<Option<Event>>): seq<Event> {
    if queue == [] then []
    else if queue[0].None? then Events(queue[1..])
    else [queue[0].value] + Events(queue[1..])
  }

  function AllEvents(batches: seq<Batch>): seq<Event> {
    if batches == [] then [] else batches[0].events + AllEvents(batches[1..])
  }

  function InHand(w: Writer): seq<Event> {
    if w.Filling? || w.Storing? then w.batch else []
  }

  /** No sentinel. */
  predicate Plain(queue: seq<Option<Event>>) {
    queue == [] || (queue[0].Some? && Plain(queue[1..]))
  }

  /** One sentinel, at the very end. */
  predicate EndsOnce(queue: seq<Option<Event>>) {
    queue != [] && (if queue[0].None? then |queue| == 1 else EndsOnce(queue[1..]))
  }

  /** Nothing is lost, repeated or reordered. */
  predicate InOrder(s: Engine) {
    s.admitted == AllEvents(s.handed) + InHand(s.writer) + Events(s.queue) && |s.owners| == |s.admitted|
  }

  predicate SentinelTaken(w: Writer) {
    w.Done? || (w.Storing? && w.stopping)
  }

  predicate SentinelLast(s: Engine) {
    if s.stopped && !s.writer.NotStarted? && !SentinelTaken(s.writer) then EndsOnce(s.queue)
    else if s.stopped then s.queue == []
    else Plain(s.queue)
  }

  /** There is a writer as soon as there was a handler. */
  predicate WriterStarted(s: Engine) {
    && (s.writer.NotStarted? ==> s.handler.None? && s.queue == [] && !s.thread)
    && (!s.stopped ==> s.running == s.thread == !s.writer.NotStarted? && !SentinelTaken(s.writer))
  }

  predicate Inv(s: Engine) {
    InOrder(s) && SentinelLast(s) && WriterStarted(s)
  }

  lemma {:induction false} EventsAppend(q: seq<Option<Event>>, x: Option<Event>)
    ensures Events(q + [x]) == Events(q) + if x.Some? then [x.value] else []
    ensures Plain(q) && x.Some? ==> Plain(q + [x])
    ensures Plain(q) && x.None? ==> EndsOnce(q + [x])
  {
    if q == [] {
      assert [x][1..] == [];
    } else {
      assert (q + [x])[0] == q[0] && (q + [x])[1..] == q[1..] + [x];
      EventsAppend(q[1..], x);
    }
  }

  lemma {:induction false} AllEventsAppend(bs: seq<Batch>, b: Batch)
    ensures AllEvents(bs + [b]) == AllEvents(bs) + b.events
  {
    if bs == [] {
      assert [b][1..] == [];
    } else {
      assert (bs + [b])[0] == bs[0] && (bs + [b])[1..] == bs[1..] + [b];
      AllEventsAppend(bs[1..], b);
    }
  }

  lemma RecordKeepsInv(s: Engine, e: Event)
    requires Inv(s)
    ensures Inv(Recorded(s, e))
  {
    EventsAppend(s.queue, Some(e));
  }

  lemma StopKeepsInv(s: Engine)
    requires Inv(s)
    ensures Inv(Stopped(s))
  {
    EventsAppend(s.queue, None);
  }

  lemma TakenKeepsInv(s: Engine)
    requires Inv(s) && Enabled(s, Get)
    ensures Inv(Taken(s))
  {
    if s.queue[0].Some? {
      MoveOne(AllEvents(s.handed), [], s.queue);
      assert [] + [s.queue[0].value] == [s.queue[0].value];
    }
  }

  lemma MoveOne(done: seq<Event>, batch: seq<Event>, q: seq<Option<Event>>)
    requires q != [] && q[0].Some?
    ensures done + batch + Events(q) == done + (batch + [q[0].value]) + Events(q[1..])
  {
  }

  lemma TakeOne(batch: seq<Event>, q: seq<Option<Event>>)
    requires EndsOnce(q)
    ensures q[0].None? ==> q[1..] == [] && batch + Events(q) == batch
    ensures q[0].Some? ==> EndsOnce(q[1..]) && batch + Events(q) == batch + [q[0].value] + Events(q[1..])
  {
    if q[0].Some? {
      var x, rest := [q[0].value], Events(q[1..]);
      assert batch + (x + rest) == batch + x + rest;
    } else {
      assert q[1..] == [];
    }
  }

  lemma FilledKeepsInv(s: Engine)
    requires Inv(s) && Enabled(s, GetNowait)
    ensures Inv(Filled(s))
  {
    if s.queue != [] && s.queue[0].Some? {
      MoveOne(AllEvents(s.handed), s.writer.batch, s.queue);
    }
  }

  lemma HandedKeepsInv(s: Engine)
    requires Inv(s) && Enabled(s, Store)
    ensures Inv(Handed(s))
  {
    AllEventsAppend(s.handed, Batch(s.writer.to, s.writer.batch));
  }

  lemma StepKeepsInv(s: Engine, a: Step)
    requires Inv(s) && Enabled(s, a)
    ensures Inv(Next(s, a))
  {
    match a {
      case Record(e) => RecordKeepsInv(s, e);
      case Stop => StopKeepsInv(s);
      case Get => TakenKeepsInv(s);
      case GetNowait => FilledKeepsInv(s);
      case Store => HandedKeepsInv(s);
      case _ =>
    }
  }

  /** In every run: what was handed out so far, what the writer holds and what is queued are exactly the
      admitted events in order, and the sentinel is last. */
  lemma {:induction false} EveryRunKeepsInv(s: Engine, run: seq<Step>, s': Engine)
    requires Inv(s) && Leads(s, run, s')
    ensures Inv(s')
    decreases |run|
  {
    if run != [] {
      StepKeepsInv(s, run[0]);
      EveryRunKeepsInv(Next(s, run[0]), run[1..], s');
    }
  }

  /** Once the writer is done, every admitted event has been handed out, in order and once. */
  lemma DoneMeansAllHanded(run: seq<Step>, s: Engine)
    requires Leads(START, run, s) && s.writer.Done?
    ensures AllEvents(s.handed) == s.admitted && s.queue == [] && s.stopped
  {
    EveryRunKeepsInv(START, run, s);
  }

  /** Nothing is admitted after the stop. */
  lemma {:induction false} StopClosesAdmission(s: Engine, run: seq<Step>, s': Engine)
    requires s.stopped && Leads(s, run, s')
    ensures s'.stopped && s'.admitted == s.admitted
    decreases |run|
  {
    if run != [] {
      StopClosesAdmission(Next(s, run[0]), run[1..], s');
    }
  }

  // ---------------------------------------------------------------- which events are admitted

  /** The events that a run records while it is not stopped and a handler is attached, each with that handler. */
  function Admissions(run: seq<Step>, attached: Option<Handler>, stopped: bool): seq<(Event, Handler)>
    decreases |run|
  {
    if run == [] then []
    else
      (if run[0].Record? && !stopped && attached.Some? then [(run[0].e, attached.value)] else [])
      + Admissions(run[1..], if run[0].SetHandler? && !stopped then run[0].h else attached, stopped || run[0].Stop?)
  }

  function EventsOf(xs: seq<(Event, Handler)>): seq<Event> {
    if xs == [] then [] else [xs[0].0] + EventsOf(xs[1..])
  }

  function HandlersOf(xs: seq<(Event, Handler)>): seq<Handler> {
    if xs == [] then [] else [xs[0].1] + HandlersOf(xs[1..])
  }

  lemma OneMore(x: (Event, Handler), xs: seq<(Event, Handler)>)
    ensures EventsOf([x] + xs) == [x.0] + EventsOf(xs) && HandlersOf([x] + xs) == [x.1] + HandlersOf(xs)
  {
    assert ([x] + xs)[1..] == xs;
  }

  lemma StepAdmits(s: Engine, a: Step)
    requires Enabled(s, a)
    ensures var s' := Next(s, a);
      && s'.handler == (if a.SetHandler? && !s.stopped then a.h else s.handler)
      && s'.stopped == (s.stopped || a.Stop?)
      && (a.Record? && !s.stopped && s.handler.Some? ==>
            s'.admitted == s.admitted + [a.e] && s'.owners == s.owners + [s.handler.value])
      && (!(a.Record? && !s.stopped && s.handler.Some?) ==> s'.admitted == s.admitted && s'.owners == s.owners)
  {
  }

  lemma {:induction false} RunAdmits(s: Engine, run: seq<Step>, s': Engine)
    requires Leads(s, run, s')
    ensures s'.admitted == s.admitted + EventsOf(Admissions(run, s.handler, s.stopped))
    ensures s'.owners == s.owners + HandlersOf(Admissions(run, s.handler, s.stopped))
    decreases |run|
  {
    if run != [] {
      var s1 := Next(s, run[0]);
      var rest := Admissions(run[1..], s1.handler, s1.stopped);
      StepAdmits(s, run[0]);
      RunAdmits(s1, run[1..], s');
      if run[0].Record? && !s.stopped && s.handler.Some? {
        OneMore((run[0].e, s.handler.value), rest);
      } else {
        assert [] + rest == rest;
      }
    }
  }

  /** Whatever the interleaving, the admitted events are those, in that order. */
  lemma AdmittedAre(run: seq<Step>, s: Engine)
    requires Leads(START, run, s)
    ensures s.admitted == EventsOf(Admissions(run, None, false))
    ensures s.owners == HandlersOf(Admissions(run, None, false))
  {
    RunAdmits(START, run, s);
  }

  /** So when the writer is done, what it has handed out is exactly what was recorded in time. */
  lemma AllRecordedAreHanded(run: seq<Step>, s: Engine)
    requires Leads(START, run, s) && s.writer.Done?
    ensures AllEvents(s.handed) == EventsOf(Admissions(run, None, false))
  {
    DoneMeansAllHanded(run, s);
    AdmittedAre(run, s);
  }

  // ---------------------------------------------------------------- the writer ends

  predicate WriterStep(a: Step) {
    a.Begin? || a.Get? || a.GetNowait? || a.Store?
  }

  /** The step the writer takes next. */
  function WritersNext(w: Writer): Step {
    match w
    case Starting => Begin
    case Waiting(_) => Get
    case Filling(_, _) => GetNowait
    case _ => Store
  }

  /** How many steps the writer can still take, at most. */
  function Rank(s: Engine): nat {
    3 * |s.queue| + match s.writer
      case NotStarted => 0
      case Starting => 2
      case Waiting(_) => 1
      case Filling(_, _) => 3
      case Storing(_, _, _) => 2
      case Done(_) => 0
  }

  /** After the stop the writer never waits in vain, and each of its steps brings it nearer to its end. */
  lemma WriterProgresses(s: Engine)
    requires Inv(s) && s.stopped && !s.writer.NotStarted? && !s.writer.Done?
    ensures Enabled(s, WritersNext(s.writer)) && WriterStep(WritersNext(s.writer))
    ensures Rank(Next(s, WritersNext(s.writer))) < Rank(s)
  {
  }

  function WriterSteps(run: seq<Step>): nat
    decreases |run|
  {
    if run == [] then 0 else (if WriterStep(run[0]) then 1 else 0) + WriterSteps(run[1..])
  }

  lemma RankFalls(s: Engine, a: Step)
    requires Inv(s) && s.stopped && Enabled(s, a)
    ensures Rank(Next(s, a)) + (if WriterStep(a) then 1 else 0) <= Rank(s)
  {
    if WriterStep(a) {
      assert a == WritersNext(s.writer);
      WriterProgresses(s);
    }
  }

  /** However the other threads behave, after a stop the writer takes boundedly many steps; and it cannot
      stand still before it is done, by the lemma above. */
  lemma {:induction false} WriterTerminates(s: Engine, run: seq<Step>, s': Engine)
    requires Inv(s) && s.stopped && Leads(s, run, s')
    ensures WriterSteps(run) <= Rank(s)
    decreases |run|
  {
    if run != [] {
      StepKeepsInv(s, run[0]);
      RankFalls(s, run[0]);
      WriterTerminates(Next(s, run[0]), run[1..], s');
    }
  }

  /** With nothing else going on, a stopped engine's waiting writer hands out all that is queued as one batch, as
      `FinishWriting` does, and is done. */
  lemma WriterFinishes(s: Engine) returns (run: seq<Step>, s': Engine)
    requires s.writer.Waiting? && EndsOnce(s.queue)
    ensures Leads(s, run, s') && forall a | a in run :: WriterStep(a)
    ensures s' == s.(queue := [], writer := Done(s.writer.to),
                     handed := s.handed + if s.queue[0].None? then [] else [Batch(s.writer.to, Events(s.queue))])
  {
    var s1 := Next(s, Get);
    if s.queue[0].None? {
      run, s' := [Get], s1;
      assert s.queue[1..] == [] && s.handed + [] == s.handed;
      LeadsCons(s, Get, [], s');
    } else {
      TakeOne([], s.queue);
      run, s' := FillingFinishes(s1);
      run := [Get] + run;
      LeadsCons(s, Get, run[1..], s');
    }
  }

  lemma {:induction false} FillingFinishes(s: Engine) returns (run: seq<Step>, s': Engine)
    requires s.writer.Filling? && EndsOnce(s.queue)
    ensures Leads(s, run, s') && forall a | a in run :: WriterStep(a)
    ensures s' == s.(queue := [], writer := Done(s.writer.to),
                     handed := s.handed + [Batch(s.writer.to, s.writer.batch + Events(s.queue))])
    decreases |s.queue|
  {
    var s1 := Next(s, GetNowait);
    TakeOne(s.writer.batch, s.queue);
    if s.queue[0].None? {
      s' := Next(s1, Store);
      run := [GetNowait, Store];
      LeadsCons(s1, Store, [], s');
      LeadsCons(s, GetNowait, [Store], s');
    } else {
      run, s' := FillingFinishes(s1);
      run := [GetNowait] + run;
      LeadsCons(s, GetNowait, run[1..], s');
    }
  }

  // ---------------------------------------------------------------- who gets the batches

  /** The handler attached when the writer takes its first step, and reads it without the lock; None if it
      never does. A stopped bridge attaches nothing. */
  function HandlerAtBegin(run: seq<Step>, attached: Option<Handler>, stopped: bool): Option<Option<Handler>>
    decreases |run|
  {
    if run == [] then None
    else match run[0]
      case Begin => Some(attached)
      case SetHandler(h) => HandlerAtBegin(run[1..], if stopped then attached else h, stopped)
      case Stop => HandlerAtBegin(run[1..], attached, true)
      case _ => HandlerAtBegin(run[1..], attached, stopped)
  }

  predicate AllTo(batches: seq<Batch>, to: Option<Handler>) {
    batches == [] || (batches[0].to == to && AllTo(batches[1..], to))
  }

  predicate Reads(s: Engine, to: Option<Handler>) {
    && AllTo(s.handed, to)
    && (s.writer.NotStarted? || s.writer.Starting? || s.writer.to == to)
  }

  lemma {:induction false} AllToAppend(bs: seq<Batch>, b: Batch)
    requires AllTo(bs, b.to)
    ensures AllTo(bs + [b], b.to)
  {
    if bs == [] {
      assert [b][1..] == [];
    } else {
      assert (bs + [b])[0] == bs[0] && (bs + [b])[1..] == bs[1..] + [b];
      AllToAppend(bs[1..], b);
    }
  }

  lemma {:induction false} WriterKeepsHandler(s: Engine, run: seq<Step>, s': Engine, to: Option<Handler>)
    requires Inv(s) && !s.writer.NotStarted? && !s.writer.Starting? && Reads(s, to) && Leads(s, run, s')
    ensures Reads(s', to)
    decreases |run|
  {
    if run != [] {
      var s1 := Next(s, run[0]);
      StepKeepsInv(s, run[0]);
      if run[0].Store? {
        AllToAppend(s.handed, Batch(to, s.writer.batch));
      }
      WriterKeepsHandler(s1, run[1..], s', to);
    }
  }

  lemma {:induction false} BatchesGoToHandlerAtBegin(s: Engine, run: seq<Step>, s': Engine)
    requires Inv(s) && (s.writer.NotStarted? || s.writer.Starting?) && s.handed == [] && Leads(s, run, s')
    ensures match HandlerAtBegin(run, s.handler, s.stopped)
      case None => s'.handed == []
      case Some(to) => AllTo(s'.handed, to)
    decreases |run|
  {
    if run != [] {
      var s1 := Next(s, run[0]);
      StepKeepsInv(s, run[0]);
      if run[0].Begin? {
        WriterKeepsHandler(s1, run[1..], s', s.handler);
      } else {
        BatchesGoToHandlerAtBegin(s1, run[1..], s');
      }
    }
  }

  /** Every batch of a run goes to the handler that was attached when the writer thread first ran. The
      events are lost in a batch for nobody exactly if none was attached at that moment. */
  lemma BatchesLostIff(run: seq<Step>, s: Engine)
    requires Leads(START, run, s) && s.handed != []
    ensures HandlerAtBegin(run, None, false).Some? && AllTo(s.handed, HandlerAtBegin(run, None, false).value)
    ensures AllTo(s.handed, None) <==> HandlerAtBegin(run, None, false) == Some(None)
  {
    BatchesGoToHandlerAtBegin(START, run, s);
  }

  /** The handler that the i-th event handed out went to. */
  function RecipientAt(batches: seq<Batch>, i: nat): Option<Handler>
    requires i < |AllEvents(batches)|
  {
    if i < |batches[0].events| then batches[0].to else RecipientAt(batches[1..], i - |batches[0].events|)
  }

  lemma {:induction false} RecipientOfAll(batches: seq<Batch>, to: Option<Handler>, i: nat)
    requires AllTo(batches, to) && i < |AllEvents(batches)|
    ensures RecipientAt(batches, i) == to
  {
    if i >= |batches[0].events| {
      RecipientOfAll(batches[1..], to, i - |batches[0].events|);
    }
  }

  /** Event by event: the i-th event handed out is the i-th admitted one, and it reaches the handler that was
      attached when it was admitted if and only if that handler was attached when the writer thread began. */
  lemma ReachesItsHandlerIff(run: seq<Step>, s: Engine, i: nat)
    requires Leads(START, run, s) && i < |AllEvents(s.handed)|
    ensures i < |s.admitted| == |s.owners| && AllEvents(s.handed)[i] == s.admitted[i]
    ensures RecipientAt(s.handed, i) == Some(s.owners[i])
      <==> HandlerAtBegin(run, None, false) == Some(Some(s.owners[i]))
  {
    EveryRunKeepsInv(START, run, s);
    BatchesLostIff(run, s);
    RecipientOfAll(s.handed, HandlerAtBegin(run, None, false).value, i);
  }

  /** So an event admitted for a handler can be lost: the handler was taken off and put back around the
      start of the thread. */
  lemma HandlerReadTooEarly(h: Handler, e: Event)
    ensures var run := [SetHandler(Some(h)), SetHandler(None), Begin, SetHandler(Some(h)), Record(e), Get, GetNowait,
                        Store];
      var s := Engine(Some(h), false, true, true, [], Waiting(None), [e], [h], [Batch(None, [e])]);
      Leads(START, run, s)
  {
    var s1 := Engine(Some(h), false, true, true, [], Starting, [], [], []);
    var s2 := s1.(handler := None);
    var s3 := s2.(writer := Waiting(None));
    var s4 := s3.(handler := Some(h));
    var s5 := s4.(queue := [Some(e)], admitted := [e], owners := [h]);
    var s6 := s5.(queue := [], writer := Filling(None, [e]));
    var s7 := s6.(writer := Storing(None, [e], false));
    var s8 := s7.(writer := Waiting(None), handed := [Batch(None, [e])]);
    LeadsCons(s7, Store, [], s8);
    LeadsCons(s6, GetNowait, [Store], s8);
    LeadsCons(s5, Get, [GetNowait, Store], s8);
    LeadsCons(s4, Record(e), [Get, GetNowait, Store], s8);
    LeadsCons(s3, SetHandler(Some(h)), [Record(e), Get, GetNowait, Store], s8);
    LeadsCons(s2, Begin, [SetHandler(Some(h)), Record(e), Get, GetNowait, Store], s8);
    LeadsCons(s1, SetHandler(None), [Begin, SetHandler(Some(h)), Record(e), Get, GetNowait, Store], s8);
    LeadsCons(START, SetHandler(Some(h)), [SetHandler(None), Begin, SetHandler(Some(h)), Record(e), Get, GetNowait,
                                           Store], s8);
  }

  lemma LeadsCons(s: Engine, a: Step, rest: seq<Step>, s': Engine)
    requires Enabled(s, a) && Leads(Next(s, a), rest, s')
    ensures Leads(s, [a] + rest, s')
  {
    assert ([a] + rest)[1..] == rest;
  }
}
