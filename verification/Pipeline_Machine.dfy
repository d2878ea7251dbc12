/** Source, parser and sink threads over channels, as a step machine.

    A step is one access of one thread to what it shares with others: a thread state, a
    channel, a module. Channels are atomic bounded queues whose Push may fail. What modules
    answer (Read, Parse, whether one is enabled) and when a thread is asked to stop is open. */
module PipelineMachine {
  import opened Basics

  const THREAD_MAX := 32

  // Records are numbered in the order in which they are read.
  type Record = nat

  datatype ThreadState = Init | Running | Stop

  datatype SourceAt =
    | SourceAbsent
    | SourceOpening                     // about to store Running
    | SourceLoop                        // about to load its own state
    | SourceReading                     // about to call Read
    | SourceScan(rec: Record)           // about to load the state of the next parser
    | SourcePush(rec: Record)           // about to push to that parser
    | SourceDone

  datatype ParserAt =
    | ParserAbsent
    | ParserOpening                     // about to create its channel
    | ParserReady                       // about to store Running
    | ParserLoop
    | ParserPopping
    | ParserHandling(rec: Record)       // about to find a handle and parse
    | ParserScan(rec: Record)
    | ParserPush(rec: Record)
    | ParserDraining                    // stopped: frees what is left in its channel
    | ParserDrainingEvents              // the second loop on the same channel
    | ParserDone

  datatype SinkAt =
    | SinkAbsent
    | SinkOpening
    | SinkReady
    | SinkLoop
    | SinkPopping
    | SinkWriting(rec: Record, handle: nat)
    | SinkDraining
    | SinkDone

  datatype Source = Source(state: ThreadState, at: SourceAt, offset: nat)
  datatype Parser = Parser(state: ThreadState, at: ParserAt, offset: nat, stream: Option<seq<Record>>)
  datatype Sink = Sink(state: ThreadState, at: SinkAt, stream: Option<seq<Record>>)

  // How far CreateWorker has come.
  datatype Creator =
    | SpawnSink(i: nat) | AwaitSink(i: nat)
    | SpawnParser(i: nat) | AwaitParser(i: nat)
    | SpawnSource(i: nat) | AwaitSource(i: nat)
    | AllCreated

  // Where a record can be.
  datatype Place =
    | SourceHands(i: nat) | ParserStream(i: nat) | ParserHands(i: nat)
    | SinkStream(i: nat) | SinkHands(i: nat)
    | Released | FreedAsEvent

  datatype Write = Write(sink: nat, handle: nat, rec: Record)

  datatype Settings = Settings(sources: nat, parsers: nat, sinks: nat, parserRoom: nat, sinkRoom: nat, handles: nat)

  datatype State = State(
    settings: Settings,
    creator: Creator,
    sources: seq<Source>,
    parsers: seq<Parser>,
    sinks: seq<Sink>,
    released: seq<Record>,      // buffers freed with oak_metadata_free
    asEvents: seq<Record>,      // freed as if they were events
    writes: seq<Write>,         // what sink modules were given
    crashed: bool,              // a channel that does not exist was used
    place: seq<Place>)          // history: where each record went last

  datatype Action =
    | Create
    | SourceStep(i: nat, ok: bool)      // ok: what Read or Push answers
    | ParserStep(i: nat, ok: bool)      // ok: what Pop, Parse or Push answers
    | SinkStep(i: nat, ok: bool)
    | StopSource(i: nat) | StopParser(i: nat) | StopSink(i: nat)

  // ---- InitRuntimeEnviron ----

  function Distance(n: int, k: int): nat { if n < k then k - n else n - k }

  // The allowed number of threads nearest to n.
  function Clamp(n: int): (r: nat)
    ensures 1 <= r <= THREAD_MAX && forall k :: 1 <= k <= THREAD_MAX ==> Distance(n, r) <= Distance(n, k)
  {
    if n <= 0 then 1 else if n > THREAD_MAX then THREAD_MAX else n
  }

  function Room(size: int): nat { if size <= 0 then 511 else size - 1 }

  datatype Config = Config(sources: int, parsers: int, sinks: int, parserChannel: int, sinkChannel: int, handles: nat)

  function InitRuntimeEnviron(c: Config): (s: State)
    ensures Shape(s) && SourcesMade(s) == ParsersMade(s) == SinksMade(s) == 0
    ensures forall i :: 0 <= i < THREAD_MAX ==> s.parsers[i].stream.None? && s.sinks[i].stream.None?
  {
    State(
      Settings(Clamp(c.sources), Clamp(c.parsers), Clamp(c.sinks),
               Room(c.parserChannel), Room(c.sinkChannel), c.handles),
      SpawnSink(0),
      seq(THREAD_MAX, i => Source(Stop, SourceAbsent, 0)),
      seq(THREAD_MAX, i => Parser(Stop, ParserAbsent, 0, None)),
      seq(THREAD_MAX, i => Sink(Stop, SinkAbsent, None)),
      [], [], [], false, [])
  }

  // ---- what steps rely on ----

  predicate SourceShape(s: State, x: Source) {
    if x.at.SourceScan? then x.offset <= s.settings.parsers else x.offset < s.settings.parsers
  }

  predicate ParserShape(s: State, x: Parser) {
    if x.at.ParserScan? then x.offset <= s.settings.sinks else x.offset < s.settings.sinks
  }

  predicate CreatorShape(s: State) {
    match s.creator
    case SpawnSink(i) => i <= s.settings.sinks
    case AwaitSink(i) => i < s.settings.sinks
    case SpawnParser(i) => i <= s.settings.parsers
    case AwaitParser(i) => i < s.settings.parsers
    case SpawnSource(i) => i <= s.settings.sources
    case AwaitSource(i) => i < s.settings.sources
    case AllCreated => true
  }

  // How many threads of each kind CreateWorker has started.
  function SinksMade(s: State): nat {
    match s.creator case SpawnSink(i) => i case AwaitSink(i) => i + 1 case _ => s.settings.sinks
  }

  function ParsersMade(s: State): nat {
    match s.creator
    case SpawnSink(_) | AwaitSink(_) => 0
    case SpawnParser(i) => i
    case AwaitParser(i) => i + 1
    case _ => s.settings.parsers
  }

  function SourcesMade(s: State): nat {
    match s.creator
    case SpawnSource(i) => i
    case AwaitSource(i) => i + 1
    case AllCreated => s.settings.sources
    case _ => 0
  }

  // Exactly those threads exist.
  predicate OnlyMade(s: State) {
    && (forall i :: 0 <= i < |s.sources| ==> (s.sources[i].at.SourceAbsent? <==> SourcesMade(s) <= i))
    && (forall i :: 0 <= i < |s.parsers| ==> (s.parsers[i].at.ParserAbsent? <==> ParsersMade(s) <= i))
    && (forall i :: 0 <= i < |s.sinks| ==> (s.sinks[i].at.SinkAbsent? <==> SinksMade(s) <= i))
  }

  predicate Sizes(s: State) {
    && 1 <= s.settings.sources <= THREAD_MAX && 1 <= s.settings.parsers <= THREAD_MAX
    && 1 <= s.settings.sinks <= THREAD_MAX
    && |s.sources| == |s.parsers| == |s.sinks| == THREAD_MAX
  }

  predicate Shape(s: State) {
    && Sizes(s) && CreatorShape(s) && OnlyMade(s)
    && (forall i :: 0 <= i < THREAD_MAX ==> SourceShape(s, s.sources[i]))
    && (forall i :: 0 <= i < THREAD_MAX ==> ParserShape(s, s.parsers[i]))
  }

  function PutSource(s: State, i: nat, x: Source): State
    requires i < |s.sources|
  {
    s.(sources := s.sources[i := x])
  }

  function PutParser(s: State, i: nat, x: Parser): State
    requires i < |s.parsers|
  {
    s.(parsers := s.parsers[i := x])
  }

  function PutSink(s: State, i: nat, x: Sink): State
    requires i < |s.sinks|
  {
    s.(sinks := s.sinks[i := x])
  }

  // ---- what happens to records ----

  datatype Effect =
    | Quiet
    | Reads                             // a new record comes into the thread's hands
    | Takes(rec: Record)                // popped from the thread's own channel
    | ToParser(rec: Record, j: nat)     // pushed to parser j
    | ToSink(rec: Record, j: nat)       // pushed to sink j
    | Frees(rec: Record)                // oak_metadata_free
    | FreesAsEvent(rec: Record)
    | Writes(rec: Record, handle: nat)
    | Crashes

  // History: record r is now at p.
  function Placed(s: State, r: Record, p: Place): State {
    if r < |s.place| then s.(place := s.place[r := p]) else s
  }

  function Appended(stream: Option<seq<Record>>, r: Record): Option<seq<Record>> {
    match stream case None => None case Some(q) => Some(q + [r])
  }

  function PushParser(s: State, j: nat, r: Record): State
    requires j < |s.parsers|
  {
    PutParser(s, j, s.parsers[j].(stream := Appended(s.parsers[j].stream, r)))
  }

  function PushSink(s: State, j: nat, r: Record): State
    requires j < |s.sinks|
  {
    PutSink(s, j, s.sinks[j].(stream := Appended(s.sinks[j].stream, r)))
  }

  // The target of a push exists as a context.
  predicate InRange(s: State, e: Effect) {
    (e.ToParser? ==> e.j < |s.parsers|) && (e.ToSink? ==> e.j < |s.sinks|)
  }

  // The effect, in thread i whose hands are the place here.
  function Perform(s: State, i: nat, here: Place, e: Effect): State
    requires InRange(s, e)
  {
    match e
    case Quiet => s
    case Reads => s.(place := s.place + [here])
    case Takes(r) => Placed(s, r, here)
    case ToParser(r, j) => Placed(PushParser(s, j, r), r, ParserStream(j))
    case ToSink(r, j) => Placed(PushSink(s, j, r), r, SinkStream(j))
    case Frees(r) => Placed(s.(released := s.released + [r]), r, Released)
    case FreesAsEvent(r) => Placed(s.(asEvents := s.asEvents + [r]), r, FreedAsEvent)
    case Writes(r, k) => s.(writes := s.writes + [Write(i, k, r)])
    case Crashes => s.(crashed := true)
  }

  // ---- CreateWorker ----

  function StartSink(s: State, i: nat): State
    requires i < |s.sinks|
  {
    PutSink(s, i, s.sinks[i].(state := Init, at := SinkOpening)).(creator := AwaitSink(i))
  }

  function StartParser(s: State, i: nat): State
    requires i < |s.parsers|
  {
    PutParser(s, i, s.parsers[i].(state := Init, at := ParserOpening)).(creator := AwaitParser(i))
  }

  function StartSource(s: State, i: nat): State
    requires i < |s.sources|
  {
    PutSource(s, i, s.sources[i].(state := Init, at := SourceOpening)).(creator := AwaitSource(i))
  }

  // Waiting for a thread to run, and going on to the next kind, starts nothing.
  function Onward(s: State): Creator
    requires Shape(s)
  {
    match s.creator
    case SpawnSink(i) => if i == s.settings.sinks then SpawnParser(0) else s.creator
    case AwaitSink(i) => if s.sinks[i].state.Running? then SpawnSink(i + 1) else s.creator
    case SpawnParser(i) => if i == s.settings.parsers then SpawnSource(0) else s.creator
    case AwaitParser(i) => if s.parsers[i].state.Running? then SpawnParser(i + 1) else s.creator
    case SpawnSource(i) => if i == s.settings.sources then AllCreated else s.creator
    case AwaitSource(i) => if s.sources[i].state.Running? then SpawnSource(i + 1) else s.creator
    case AllCreated => AllCreated
  }

  function CreateStep(s: State): State
    requires Shape(s)
  {
    if s.creator.SpawnSink? && s.creator.i < s.settings.sinks then StartSink(s, s.creator.i)
    else if s.creator.SpawnParser? && s.creator.i < s.settings.parsers then StartParser(s, s.creator.i)
    else if s.creator.SpawnSource? && s.creator.i < s.settings.sources then StartSource(s, s.creator.i)
    else s.(creator := Onward(s))
  }

  // ---- SourceThreadRoutine ----

  function SourceLocal(s: State, x: Source, ok: bool): (Source, Effect)
    requires Sizes(s) && SourceShape(s, x)
  {
    match x.at
    case SourceAbsent | SourceDone => (x, Quiet)
    case SourceOpening => (x.(state := Running, at := SourceLoop), Quiet)
    case SourceLoop => (x.(at := if x.state.Stop? then SourceDone else SourceReading), Quiet)
    case SourceReading =>
      if ok then (x.(at := SourceScan(|s.place|)), Reads) else (x.(at := SourceLoop), Quiet)
    case SourceScan(r) =>
      if x.offset == s.settings.parsers then (x.(at := SourceLoop, offset := 0), Frees(r))
      else if s.parsers[x.offset].state.Running? then (x.(at := SourcePush(r)), Quiet)
      else (x.(offset := x.offset + 1), Quiet)
    case SourcePush(r) =>
      match s.parsers[x.offset].stream
      case None => (x, Crashes)
      case Some(q) =>
        if ok && |q| < s.settings.parserRoom then (x.(at := SourceLoop), ToParser(r, x.offset))
        else (x.(at := SourceScan(r), offset := x.offset + 1), Quiet)
  }

  // ---- ParserThreadRoutine ----

  function ParserLocal(s: State, x: Parser, ok: bool): (Parser, Effect)
    requires Sizes(s) && ParserShape(s, x)
  {
    match x.at
    case ParserAbsent | ParserDone => (x, Quiet)
    case ParserOpening => (x.(stream := Some([]), at := ParserReady), Quiet)
    case ParserReady => (x.(state := Running, at := ParserLoop), Quiet)
    case ParserLoop => (x.(at := if x.state.Stop? then ParserDraining else ParserPopping), Quiet)
    case ParserPopping =>
      (match x.stream
       case None => (x, Crashes)
       case Some(q) =>
         if ok && q != [] then (x.(stream := Some(q[1..]), at := ParserHandling(q[0])), Takes(q[0]))
         else (x.(at := ParserLoop), Quiet))
    case ParserHandling(r) =>
      if ok then (x.(at := ParserScan(r)), Quiet) else (x.(at := ParserLoop), Frees(r))
    case ParserScan(r) =>
      if x.offset == s.settings.sinks then (x.(at := ParserLoop, offset := 0), Frees(r))
      else if s.sinks[x.offset].state.Running? then (x.(at := ParserPush(r)), Quiet)
      else (x.(offset := x.offset + 1), Quiet)
    case ParserPush(r) =>
      (match s.sinks[x.offset].stream
       case None => (x, Crashes)
       case Some(q) =>
         if ok && |q| < s.settings.sinkRoom then (x.(at := ParserLoop), ToSink(r, x.offset))
         else (x.(at := ParserScan(r), offset := x.offset + 1), Quiet))
    case ParserDraining =>
      (match x.stream
       case None => (x, Crashes)
       case Some(q) =>
         if q != [] then (x.(stream := Some(q[1..])), Frees(q[0]))
         else (x.(at := ParserDrainingEvents), Quiet))
    case ParserDrainingEvents =>
      match x.stream
      case None => (x, Crashes)
      case Some(q) =>
        if q != [] then (x.(stream := Some(q[1..])), FreesAsEvent(q[0]))
        else (x.(at := ParserDone), Quiet)
  }

  // ---- SinkThreadRoutine ----

  function SinkLocal(s: State, x: Sink, ok: bool): (Sink, Effect) {
    match x.at
    case SinkAbsent | SinkDone => (x, Quiet)
    case SinkOpening => (x.(stream := Some([]), at := SinkReady), Quiet)
    case SinkReady => (x.(state := Running, at := SinkLoop), Quiet)
    case SinkLoop => (x.(at := if x.state.Stop? then SinkDraining else SinkPopping), Quiet)
    case SinkPopping =>
      (match x.stream
       case None => (x, Crashes)
       case Some(q) =>
         if ok && s.settings.handles > 0 && q != []
         then (x.(stream := Some(q[1..]), at := SinkWriting(q[0], 0)), Takes(q[0]))
         else (x.(at := SinkLoop), Quiet))
    case SinkWriting(r, k) =>
      if k < s.settings.handles then (x.(at := SinkWriting(r, k + 1)), Writes(r, k))
      else (x.(at := SinkLoop), Frees(r))
    case SinkDraining =>
      match x.stream
      case None => (x, Crashes)
      case Some(q) =>
        if q != [] then (x.(stream := Some(q[1..])), Frees(q[0])) else (x.(at := SinkDone), Quiet)
  }

  // ---- all together ----

  function SourceNext(s: State, i: nat, ok: bool): State
    requires Shape(s) && i < THREAD_MAX
  {
    var (x, e) := SourceLocal(s, s.sources[i], ok);
    Perform(PutSource(s, i, x), i, SourceHands(i), e)
  }

  function ParserNext(s: State, i: nat, ok: bool): State
    requires Shape(s) && i < THREAD_MAX
  {
    var (x, e) := ParserLocal(s, s.parsers[i], ok);
    Perform(PutParser(s, i, x), i, ParserHands(i), e)
  }

  function SinkNext(s: State, i: nat, ok: bool): State
    requires Shape(s) && i < THREAD_MAX
  {
    var (x, e) := SinkLocal(s, s.sinks[i], ok);
    Perform(PutSink(s, i, x), i, SinkHands(i), e)
  }

  function StopNext(s: State, a: Action): State
    requires Shape(s)
  {
    match a
    case StopSource(i) => if i < THREAD_MAX then PutSource(s, i, s.sources[i].(state := Stop)) else s
    case StopParser(i) => if i < THREAD_MAX then PutParser(s, i, s.parsers[i].(state := Stop)) else s
    case StopSink(i) => if i < THREAD_MAX then PutSink(s, i, s.sinks[i].(state := Stop)) else s
    case _ => s
  }

  function Next(s: State, a: Action): State
    requires Shape(s)
  {
    if s.crashed then s
    else match a
      case Create => CreateStep(s)
      case SourceStep(i, ok) => if i < THREAD_MAX then SourceNext(s, i, ok) else s
      case ParserStep(i, ok) => if i < THREAD_MAX then ParserNext(s, i, ok) else s
      case SinkStep(i, ok) => if i < THREAD_MAX then SinkNext(s, i, ok) else s
      case _ => StopNext(s, a)
  }

  // ---- dispatch offsets stay in range, and no context outside the arrays is touched ----

  lemma {:induction false} PutSourceShape(s: State, i: nat, x: Source)
    requires Shape(s) && i < THREAD_MAX && SourceShape(s, x) && (s.sources[i].at.SourceAbsent? <==> x.at.SourceAbsent?)
    ensures Shape(PutSource(s, i, x))
  {}

  lemma {:induction false} PutParserShape(s: State, i: nat, x: Parser)
    requires Shape(s) && i < THREAD_MAX && ParserShape(s, x) && (s.parsers[i].at.ParserAbsent? <==> x.at.ParserAbsent?)
    ensures Shape(PutParser(s, i, x))
  {}

  lemma {:induction false} PutSinkShape(s: State, i: nat, x: Sink)
    requires Shape(s) && i < THREAD_MAX && (s.sinks[i].at.SinkAbsent? <==> x.at.SinkAbsent?)
    ensures Shape(PutSink(s, i, x))
  {}

  // The same contexts, with other records released, written or placed.
  lemma {:induction false} SameShape(s: State, s': State)
    requires Shape(s) && s'.settings == s.settings && s'.creator == s.creator
    requires s'.sources == s.sources && s'.parsers == s.parsers && s'.sinks == s.sinks
    ensures Shape(s')
  {}

  lemma {:induction false} PerformKeepsShape(s: State, i: nat, here: Place, e: Effect)
    requires Shape(s) && InRange(s, e)
    ensures Shape(Perform(s, i, here, e)) && Perform(s, i, here, e).settings == s.settings
  {
    if e.ToParser? {
      PutParserShape(s, e.j, s.parsers[e.j].(stream := Appended(s.parsers[e.j].stream, e.rec)));
      SameShape(PushParser(s, e.j, e.rec), Perform(s, i, here, e));
    } else if e.ToSink? {
      PutSinkShape(s, e.j, s.sinks[e.j].(stream := Appended(s.sinks[e.j].stream, e.rec)));
      SameShape(PushSink(s, e.j, e.rec), Perform(s, i, here, e));
    } else {
      SameShape(s, Perform(s, i, here, e));
    }
  }

  lemma {:induction false} SourceKeepsShape(s: State, i: nat, ok: bool)
    requires Shape(s) && i < THREAD_MAX
    ensures Shape(SourceNext(s, i, ok)) && SourceNext(s, i, ok).settings == s.settings
  {
    var (x, e) := SourceLocal(s, s.sources[i], ok);
    PutSourceShape(s, i, x);
    PerformKeepsShape(PutSource(s, i, x), i, SourceHands(i), e);
  }

  lemma {:induction false} ParserKeepsShape(s: State, i: nat, ok: bool)
    requires Shape(s) && i < THREAD_MAX
    ensures Shape(ParserNext(s, i, ok)) && ParserNext(s, i, ok).settings == s.settings
  {
    var (x, e) := ParserLocal(s, s.parsers[i], ok);
    PutParserShape(s, i, x);
    PerformKeepsShape(PutParser(s, i, x), i, ParserHands(i), e);
  }

  lemma {:induction false} SinkKeepsShape(s: State, i: nat, ok: bool)
    requires Shape(s) && i < THREAD_MAX
    ensures Shape(SinkNext(s, i, ok)) && SinkNext(s, i, ok).settings == s.settings
  {
    var (x, e) := SinkLocal(s, s.sinks[i], ok);
    PutSinkShape(s, i, x);
    PerformKeepsShape(PutSink(s, i, x), i, SinkHands(i), e);
  }

  lemma {:induction false} StartSinkShape(s: State, i: nat)
    requires Shape(s) && s.creator == SpawnSink(i) && i < s.settings.sinks
    ensures Shape(StartSink(s, i))
  {}

  lemma {:induction false} StartParserShape(s: State, i: nat)
    requires Shape(s) && s.creator == SpawnParser(i) && i < s.settings.parsers
    ensures Shape(StartParser(s, i))
  {}

  lemma {:induction false} StartSourceShape(s: State, i: nat)
    requires Shape(s) && s.creator == SpawnSource(i) && i < s.settings.sources
    ensures Shape(StartSource(s, i))
  {}

  lemma {:induction false} CreatorShapeOnly(s: State, c: Creator)
    requires Shape(s) && CreatorShape(s.(creator := c))
    requires
      var s' := s.(creator := c);
      SinksMade(s') == SinksMade(s) && ParsersMade(s') == ParsersMade(s) && SourcesMade(s') == SourcesMade(s)
    ensures Shape(s.(creator := c))
  {}

  lemma {:induction false} OnwardMade(s: State)
    requires Shape(s)
    ensures
      var s' := s.(creator := Onward(s));
      && CreatorShape(s')
      && SinksMade(s') == SinksMade(s) && ParsersMade(s') == ParsersMade(s) && SourcesMade(s') == SourcesMade(s)
  {}

  lemma {:induction false} CreateKeepsShape(s: State)
    requires Shape(s)
    ensures Shape(CreateStep(s)) && CreateStep(s).settings == s.settings
  {
    if s.creator.SpawnSink? && s.creator.i < s.settings.sinks {
      StartSinkShape(s, s.creator.i);
    } else if s.creator.SpawnParser? && s.creator.i < s.settings.parsers {
      StartParserShape(s, s.creator.i);
    } else if s.creator.SpawnSource? && s.creator.i < s.settings.sources {
      StartSourceShape(s, s.creator.i);
    } else {
      OnwardMade(s);
      CreatorShapeOnly(s, Onward(s));
    }
  }

  function ThreadsMade(s: State): nat { SinksMade(s) + ParsersMade(s) + SourcesMade(s) }

  // A step of CreateWorker starts at most one thread, and never one that is there.
  lemma {:induction false} CreateStartsOne(s: State)
    requires Shape(s)
    ensures ThreadsMade(s) <= ThreadsMade(CreateStep(s)) <= ThreadsMade(s) + 1
  {
    OnwardMade(s);
  }

  // When CreateWorker is done, exactly the configured threads have been started.
  lemma {:induction false} AllThreadsMade(s: State, i: nat)
    requires Shape(s) && s.creator.AllCreated? && i < THREAD_MAX
    ensures !s.sources[i].at.SourceAbsent? <==> i < s.settings.sources
    ensures !s.parsers[i].at.ParserAbsent? <==> i < s.settings.parsers
    ensures !s.sinks[i].at.SinkAbsent? <==> i < s.settings.sinks
  {}

  lemma {:induction false} StopKeepsShape(s: State, a: Action)
    requires Shape(s)
    ensures Shape(StopNext(s, a)) && StopNext(s, a).settings == s.settings
  {
    match a
    case StopSource(i) => if i < THREAD_MAX { PutSourceShape(s, i, s.sources[i].(state := Stop)); }
    case StopParser(i) => if i < THREAD_MAX { PutParserShape(s, i, s.parsers[i].(state := Stop)); }
    case StopSink(i) => if i < THREAD_MAX { PutSinkShape(s, i, s.sinks[i].(state := Stop)); }
    case _ => {}
  }

  lemma {:induction false} StaysInShape(s: State, a: Action)
    requires Shape(s)
    ensures Shape(Next(s, a)) && Next(s, a).settings == s.settings
  {
    match a
    case Create => CreateKeepsShape(s);
    case SourceStep(i, ok) => if i < THREAD_MAX { SourceKeepsShape(s, i, ok); }
    case ParserStep(i, ok) => if i < THREAD_MAX { ParserKeepsShape(s, i, ok); }
    case SinkStep(i, ok) => if i < THREAD_MAX { SinkKeepsShape(s, i, ok); }
    case _ => StopKeepsShape(s, a);
  }

  // The state after a run.
  function Exec(s: State, run: seq<Action>): State
    requires Shape(s)
    ensures Shape(Exec(s, run)) && Exec(s, run).settings == s.settings
    decreases |run|
  {
    if run == [] then s else StaysInShape(s, run[0]); Exec(Next(s, run[0]), run[1..])
  }
}
