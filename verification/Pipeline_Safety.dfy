/** What holds in every run of the pipeline, for every interleaving of its threads. */
module PipelineSafety {
  import opened Basics
  import opened PipelineMachine
  import opened PipelineRecords

  // ---- channels ----

  predicate SourceOk(s: State, x: Source) {
    x.at.SourcePush? ==> x.offset < |s.parsers| && s.parsers[x.offset].stream.Some?
  }

  // A parser has its channel as soon as it can be seen running, and never loses it.
  predicate ParserOk(s: State, x: Parser) {
    && (x.state.Running? ==> x.stream.Some?)
    && (x.stream.None? <==> x.at.ParserAbsent? || x.at.ParserOpening?)
    && |Queued(x.stream)| <= s.settings.parserRoom
    && (x.at.ParserPush? ==> x.offset < |s.sinks| && s.sinks[x.offset].stream.Some?)
  }

  predicate SinkOk(s: State, x: Sink) {
    && (x.state.Running? ==> x.stream.Some?)
    && (x.stream.None? <==> x.at.SinkAbsent? || x.at.SinkOpening?)
    && |Queued(x.stream)| <= s.settings.sinkRoom
  }

  predicate ThreadsOk(s: State) {
    && (forall i :: 0 <= i < |s.sources| ==> SourceOk(s, s.sources[i]))
    && (forall i :: 0 <= i < |s.parsers| ==> ParserOk(s, s.parsers[i]))
    && (forall i :: 0 <= i < |s.sinks| ==> SinkOk(s, s.sinks[i]))
  }

  // How many threads CreateWorker has seen running.
  function SinksSeen(s: State): nat {
    match s.creator case SpawnSink(i) => i case AwaitSink(i) => i case _ => s.settings.sinks
  }

  function ParsersSeen(s: State): nat {
    match s.creator
    case SpawnSink(_) | AwaitSink(_) => 0
    case SpawnParser(i) => i
    case AwaitParser(i) => i
    case _ => s.settings.parsers
  }

  predicate SeenOk(s: State) {
    && (forall i :: 0 <= i < SinksSeen(s) && i < |s.sinks| ==> s.sinks[i].stream.Some?)
    && (forall i :: 0 <= i < ParsersSeen(s) && i < |s.parsers| ==> s.parsers[i].stream.Some?)
  }

  // Channels that exist stay.
  predicate Grows(s: State, s': State) {
    && |s'.parsers| == |s.parsers| && |s'.sinks| == |s.sinks| && s'.settings == s.settings
    && (forall i :: 0 <= i < |s.parsers| && s.parsers[i].stream.Some? ==> s'.parsers[i].stream.Some?)
    && (forall i :: 0 <= i < |s.sinks| && s.sinks[i].stream.Some? ==> s'.sinks[i].stream.Some?)
  }

  lemma {:induction false} PutSourceOk(s: State, i: nat, x: Source)
    requires ThreadsOk(s) && i < |s.sources| && SourceOk(s, x)
    ensures ThreadsOk(PutSource(s, i, x)) && Grows(s, PutSource(s, i, x))
  {}

  lemma {:induction false} PutParserOk(s: State, i: nat, x: Parser)
    requires ThreadsOk(s) && i < |s.parsers| && ParserOk(s, x) && (s.parsers[i].stream.Some? ==> x.stream.Some?)
    ensures ThreadsOk(PutParser(s, i, x)) && Grows(s, PutParser(s, i, x))
  {}

  lemma {:induction false} PutSinkOk(s: State, i: nat, x: Sink)
    requires ThreadsOk(s) && i < |s.sinks| && SinkOk(s, x) && (s.sinks[i].stream.Some? ==> x.stream.Some?)
    ensures ThreadsOk(PutSink(s, i, x)) && Grows(s, PutSink(s, i, x))
  {}

  // A push finds room.
  predicate HasRoom(s: State, e: Effect) {
    && TargetExists(s, e)
    && (e.ToParser? ==> |Queued(s.parsers[e.j].stream)| < s.settings.parserRoom)
    && (e.ToSink? ==> |Queued(s.sinks[e.j].stream)| < s.settings.sinkRoom)
  }

  lemma {:induction false} PerformOk(s: State, i: nat, here: Place, e: Effect)
    requires ThreadsOk(s) && HasRoom(s, e)
    ensures ThreadsOk(Perform(s, i, here, e)) && Grows(s, Perform(s, i, here, e))
    ensures Perform(s, i, here, e).crashed <==> s.crashed || e.Crashes?
  {
    if e.ToParser? {
      PutParserOk(s, e.j, s.parsers[e.j].(stream := Appended(s.parsers[e.j].stream, e.rec)));
    } else if e.ToSink? {
      PutSinkOk(s, e.j, s.sinks[e.j].(stream := Appended(s.sinks[e.j].stream, e.rec)));
    }
  }

  lemma {:induction false} SourceStaysOk(s: State, i: nat, ok: bool)
    requires Shape(s) && ThreadsOk(s) && !s.crashed && i < THREAD_MAX
    ensures ThreadsOk(SourceNext(s, i, ok)) && Grows(s, SourceNext(s, i, ok)) && !SourceNext(s, i, ok).crashed
  {
    var (x, e) := SourceLocal(s, s.sources[i], ok);
    assert SourceOk(s, s.sources[i]);
    PutSourceOk(s, i, x);
    PerformOk(PutSource(s, i, x), i, SourceHands(i), e);
  }

  lemma {:induction false} ParserLocalOk(s: State, x: Parser, ok: bool)
    requires Sizes(s) && ParserShape(s, x) && ThreadsOk(s) && ParserOk(s, x)
    ensures
      var (x', e) := ParserLocal(s, x, ok);
      ParserOk(s, x') && (x.stream.Some? ==> x'.stream.Some?) && HasRoom(s, e) && !e.Crashes? && !e.ToParser?
  {
    if x.at.ParserScan? && x.offset < s.settings.sinks { assert SinkOk(s, s.sinks[x.offset]); }
  }

  lemma {:induction false} ParserStaysOk(s: State, i: nat, ok: bool)
    requires Shape(s) && ThreadsOk(s) && !s.crashed && i < THREAD_MAX
    ensures ThreadsOk(ParserNext(s, i, ok)) && Grows(s, ParserNext(s, i, ok)) && !ParserNext(s, i, ok).crashed
  {
    var (x, e) := ParserLocal(s, s.parsers[i], ok);
    assert ParserOk(s, s.parsers[i]);
    ParserLocalOk(s, s.parsers[i], ok);
    PutParserOk(s, i, x);
    PerformOk(PutParser(s, i, x), i, ParserHands(i), e);
  }

  lemma {:induction false} SinkStaysOk(s: State, i: nat, ok: bool)
    requires Shape(s) && ThreadsOk(s) && !s.crashed && i < THREAD_MAX
    ensures ThreadsOk(SinkNext(s, i, ok)) && Grows(s, SinkNext(s, i, ok)) && !SinkNext(s, i, ok).crashed
  {
    var (x, e) := SinkLocal(s, s.sinks[i], ok);
    assert SinkOk(s, s.sinks[i]);
    PutSinkOk(s, i, x);
    PerformOk(PutSink(s, i, x), i, SinkHands(i), e);
  }

  lemma {:induction false} SeenStays(s: State, s': State)
    requires SeenOk(s) && Grows(s, s') && SinksSeen(s') == SinksSeen(s) && ParsersSeen(s') == ParsersSeen(s)
    ensures SeenOk(s')
  {}

  lemma {:induction false} StartStaysOk(s: State)
    requires Shape(s) && ThreadsOk(s) && SeenOk(s)
    ensures s.creator.SpawnSink? && s.creator.i < s.settings.sinks ==>
      var s' := StartSink(s, s.creator.i); ThreadsOk(s') && Grows(s, s')
    ensures s.creator.SpawnParser? && s.creator.i < s.settings.parsers ==>
      var s' := StartParser(s, s.creator.i); ThreadsOk(s') && Grows(s, s')
    ensures s.creator.SpawnSource? && s.creator.i < s.settings.sources ==>
      var s' := StartSource(s, s.creator.i); ThreadsOk(s') && Grows(s, s')
  {
    match s.creator
    case SpawnSink(i) => if i < s.settings.sinks { PutSinkOk(s, i, s.sinks[i].(state := Init, at := SinkOpening)); }
    case SpawnParser(i) =>
      if i < s.settings.parsers { PutParserOk(s, i, s.parsers[i].(state := Init, at := ParserOpening)); }
    case SpawnSource(i) =>
      if i < s.settings.sources { PutSourceOk(s, i, s.sources[i].(state := Init, at := SourceOpening)); }
    case _ => {}
  }

  lemma {:induction false} CreatorOnly(s: State, c: Creator)
    requires ThreadsOk(s)
    ensures ThreadsOk(s.(creator := c))
  {}

  // A thread that CreateWorker has seen running has its channel.
  lemma {:induction false} OnwardSeen(s: State)
    requires Shape(s) && ThreadsOk(s) && SeenOk(s)
    ensures SeenOk(s.(creator := Onward(s)))
  {
    match s.creator
    case AwaitSink(i) => assert SinkOk(s, s.sinks[i]);
    case AwaitParser(i) => assert ParserOk(s, s.parsers[i]);
    case _ => {}
  }

  lemma {:induction false} CreateStaysOk(s: State)
    requires Shape(s) && ThreadsOk(s) && SeenOk(s) && !s.crashed
    ensures ThreadsOk(CreateStep(s)) && SeenOk(CreateStep(s)) && !CreateStep(s).crashed
  {
    StartStaysOk(s);
    if s.creator.SpawnSink? && s.creator.i < s.settings.sinks {
      SeenStays(s, StartSink(s, s.creator.i));
    } else if s.creator.SpawnParser? && s.creator.i < s.settings.parsers {
      SeenStays(s, StartParser(s, s.creator.i));
    } else if s.creator.SpawnSource? && s.creator.i < s.settings.sources {
      SeenStays(s, StartSource(s, s.creator.i));
    } else {
      CreatorOnly(s, Onward(s));
      OnwardSeen(s);
    }
  }

  lemma {:induction false} StopStaysOk(s: State, a: Action)
    requires Shape(s) && ThreadsOk(s) && !s.crashed
    ensures ThreadsOk(StopNext(s, a)) && Grows(s, StopNext(s, a)) && !StopNext(s, a).crashed
  {
    match a
    case StopSource(i) => if i < THREAD_MAX { PutSourceOk(s, i, s.sources[i].(state := Stop)); }
    case StopParser(i) => if i < THREAD_MAX { PutParserOk(s, i, s.parsers[i].(state := Stop)); }
    case StopSink(i) => if i < THREAD_MAX { PutSinkOk(s, i, s.sinks[i].(state := Stop)); }
    case _ => {}
  }

  lemma {:induction false} OnlyCreateCreates(s: State, a: Action)
    requires Shape(s) && !a.Create?
    ensures Next(s, a).creator == s.creator
  {}

  lemma {:induction false} StepStaysOk(s: State, a: Action)
    requires Shape(s) && ThreadsOk(s) && SeenOk(s) && !s.crashed
    ensures ThreadsOk(Next(s, a)) && SeenOk(Next(s, a)) && !Next(s, a).crashed
  {
    if a.Create? {
      CreateStaysOk(s);
    } else {
      OnlyCreateCreates(s, a);
      match a
      case SourceStep(i, ok) => if i < THREAD_MAX { SourceStaysOk(s, i, ok); }
      case ParserStep(i, ok) => if i < THREAD_MAX { ParserStaysOk(s, i, ok); }
      case SinkStep(i, ok) => if i < THREAD_MAX { SinkStaysOk(s, i, ok); }
      case _ => StopStaysOk(s, a);
    }
  }

  // ---- writes ----

  // A record that was written is still in the hands of that sink, past that handle, or released.
  predicate WriteOk(s: State, w: Write) {
    && w.rec < |s.place| && w.sink < |s.sinks| && w.handle < s.settings.handles
    && (s.place[w.rec] == Released ||
        (s.sinks[w.sink].at.SinkWriting? && s.sinks[w.sink].at.rec == w.rec && w.handle < s.sinks[w.sink].at.handle))
  }

  predicate SinkWrote(s: State, i: nat, at: SinkAt) {
    at.SinkWriting? ==>
      && at.handle <= s.settings.handles
      && forall k :: 0 <= k < at.handle ==> Write(i, k, at.rec) in s.writes
  }

  predicate WritesOk(s: State) {
    && (forall a, b :: 0 <= a < b < |s.writes| ==> s.writes[a] != s.writes[b])
    && (forall a, b :: 0 <= a < b < |s.writes| && s.writes[a].rec == s.writes[b].rec ==>
         s.writes[a].sink == s.writes[b].sink)
    && (forall a :: 0 <= a < |s.writes| ==> WriteOk(s, s.writes[a]))
    && (forall i :: 0 <= i < |s.sinks| ==> SinkWrote(s, i, s.sinks[i].at))
  }

  predicate SameWriting(at: SinkAt, at': SinkAt) { at' == at || (!at.SinkWriting? && !at'.SinkWriting?) }

  // What a step of another thread leaves alone.
  predicate WritesKept(s: State, s': State) {
    && s'.writes == s.writes && s'.settings == s.settings && |s'.sinks| == |s.sinks| && |s'.place| >= |s.place|
    && (forall i :: 0 <= i < |s.sinks| ==> SameWriting(s.sinks[i].at, s'.sinks[i].at))
    && (forall r :: 0 <= r < |s.place| && s.place[r] == Released ==> s'.place[r] == Released)
  }

  lemma {:induction false} KeptWritesOk(s: State, s': State)
    requires WritesOk(s) && WritesKept(s, s')
    ensures WritesOk(s')
  {
    forall a | 0 <= a < |s'.writes| ensures WriteOk(s', s'.writes[a]) { assert WriteOk(s, s.writes[a]); }
    forall i | 0 <= i < |s'.sinks| ensures SinkWrote(s', i, s'.sinks[i].at) { assert SinkWrote(s, i, s.sinks[i].at); }
  }

  // A released record stays released.
  lemma {:induction false} ReleasedStays(s: State, s': State, e: Effect, here: Place, stream: Place, drains: bool)
    requires Tracked(s) && Shows(s, s', e, here, stream, drains) && here != Released && stream != Released
    ensures |s'.place| >= |s.place|
    ensures forall r :: 0 <= r < |s.place| && s.place[r] == Released ==> s'.place[r] == Released
  {
    if !(e.Quiet? || e.Crashes? || e.Writes? || e.Reads?) {
      var from := if e.Takes? || drains then stream else here;
      assert TrackedAt(s, from);
      assert Contents(s, from)[0] == e.rec;
    }
  }

  lemma {:induction false} PerformStands(s: State, i: nat, here: Place, e: Effect)
    requires InRange(s, e) && !e.Writes?
    ensures
      var s' := Perform(s, i, here, e);
      && s'.writes == s.writes && |s'.sinks| == |s.sinks|
      && forall j :: 0 <= j < |s.sinks| ==> s'.sinks[j].at == s.sinks[j].at
  {}

  // Only a step of the sink itself changes where a sink stands.
  lemma {:induction false} SinksStand(s: State, a: Action)
    requires Shape(s) && !a.SinkStep? && !a.Create?
    ensures Next(s, a).writes == s.writes && |Next(s, a).sinks| == |s.sinks|
    ensures forall i :: 0 <= i < |s.sinks| ==> Next(s, a).sinks[i].at == s.sinks[i].at
  {
    match a
    case SourceStep(i, ok) =>
      if i < THREAD_MAX {
        var (x, e) := SourceLocal(s, s.sources[i], ok);
        SourceLocally(s, s.sources[i], ok);
        PerformStands(PutSource(s, i, x), i, SourceHands(i), e);
      }
    case ParserStep(i, ok) =>
      if i < THREAD_MAX {
        var (x, e) := ParserLocal(s, s.parsers[i], ok);
        ParserLocally(s, s.parsers[i], ok);
        PerformStands(PutParser(s, i, x), i, ParserHands(i), e);
      }
    case _ => {}
  }

  lemma {:induction false} CreateKeepsWriting(s: State)
    requires Shape(s)
    ensures WritesKept(s, CreateStep(s))
  {}

  // A sink step that writes nothing: it starts on a record, or has released the one it had.
  predicate Settles(s: State, s': State, i: nat)
    requires i < |s.sinks| == |s'.sinks|
  {
    var at, at' := s.sinks[i].at, s'.sinks[i].at;
    && s'.writes == s.writes && s'.settings == s.settings && |s'.place| >= |s.place|
    && (forall r :: 0 <= r < |s.place| && s.place[r] == Released ==> s'.place[r] == Released)
    && (forall j :: 0 <= j < |s.sinks| && j != i ==> s'.sinks[j].at == s.sinks[j].at)
    && (at' == at || !at.SinkWriting? || (at.rec < |s'.place| && s'.place[at.rec] == Released))
    && (at' == at || (at'.SinkWriting? ==> at'.handle == 0))
  }

  lemma {:induction false} SettledWritesOk(s: State, s': State, i: nat)
    requires i < |s.sinks| == |s'.sinks| && WritesOk(s) && Settles(s, s', i)
    ensures WritesOk(s')
  {
    forall a | 0 <= a < |s'.writes| ensures WriteOk(s', s'.writes[a]) { assert WriteOk(s, s.writes[a]); }
    forall j | 0 <= j < |s'.sinks| ensures SinkWrote(s', j, s'.sinks[j].at) { assert SinkWrote(s, j, s.sinks[j].at); }
  }

  lemma {:induction false} SinkLocalSettles(s: State, x: Sink, ok: bool)
    requires !SinkLocal(s, x, ok).1.Writes?
    ensures
      var (x', e) := SinkLocal(s, x, ok);
      && (x'.at == x.at || !x.at.SinkWriting? || e == Frees(x.at.rec))
      && (x'.at == x.at || (x'.at.SinkWriting? ==> x'.at.handle == 0))
      && InRange(s, e) && !e.ToSink?
  {}

  lemma {:induction false} SinkSettles(s: State, i: nat, ok: bool)
    requires Shape(s) && Tracked(s) && Unopened(s) && i < THREAD_MAX && !SinkLocal(s, s.sinks[i], ok).1.Writes?
    ensures |SinkNext(s, i, ok).sinks| == |s.sinks| && Settles(s, SinkNext(s, i, ok), i)
  {
    var (x, e) := SinkLocal(s, s.sinks[i], ok);
    SinkLocalSettles(s, s.sinks[i], ok);
    PerformStands(PutSink(s, i, x), i, SinkHands(i), e);
    SinkShows(s, i, ok);
    ReleasedStays(s, SinkNext(s, i, ok), e, SinkHands(i), SinkStream(i), SinkFromStream(s.sinks[i], e));
  }

  lemma {:induction false} SinkWritesOk(s: State, i: nat, ok: bool)
    requires Shape(s) && Tracked(s) && Unopened(s) && WritesOk(s) && i < THREAD_MAX
    ensures WritesOk(SinkNext(s, i, ok))
  {
    if SinkLocal(s, s.sinks[i], ok).1.Writes? {
      AnotherWrite(s, i, ok);
    } else {
      SinkSettles(s, i, ok);
      SettledWritesOk(s, SinkNext(s, i, ok), i);
    }
  }

  // What is in a sink's hands was written by no other sink, and only to earlier handles.
  lemma {:induction false} WrittenBefore(s: State, i: nat, w: Write)
    requires Tracked(s) && WriteOk(s, w) && i < |s.sinks| && s.sinks[i].at.SinkWriting? && s.sinks[i].at.rec == w.rec
    ensures w.sink == i && w.handle < s.sinks[i].at.handle
  {
    assert TrackedAt(s, SinkHands(i)) && w.rec in Contents(s, SinkHands(i));
    assert s.place[w.rec] == SinkHands(i);
    assert TrackedAt(s, SinkHands(w.sink)) && w.rec in Contents(s, SinkHands(w.sink));
  }

  // One more write, to the next handle.
  lemma {:induction false} AnotherWriteOk(s: State, s': State, i: nat, r: Record, k: nat)
    requires Tracked(s) && WritesOk(s) && i < |s.sinks| && s.sinks[i].at == SinkWriting(r, k) && k < s.settings.handles
    requires s'.writes == s.writes + [Write(i, k, r)] && s'.place == s.place && s'.settings == s.settings
    requires s'.sinks == s.sinks[i := s.sinks[i].(at := SinkWriting(r, k + 1))]
    ensures WritesOk(s')
  {
    forall a | 0 <= a < |s.writes| && s.writes[a].rec == r ensures s.writes[a].sink == i && s.writes[a].handle < k {
      assert WriteOk(s, s.writes[a]);
      WrittenBefore(s, i, s.writes[a]);
    }
    assert TrackedAt(s, SinkHands(i)) && r in Contents(s, SinkHands(i));
    forall a | 0 <= a < |s'.writes| ensures WriteOk(s', s'.writes[a]) {
      if a < |s.writes| { assert WriteOk(s, s.writes[a]); }
    }
    forall j | 0 <= j < |s'.sinks| ensures SinkWrote(s', j, s'.sinks[j].at) { assert SinkWrote(s, j, s.sinks[j].at); }
  }

  // A sink in the middle of its handles writes to the next one.
  lemma {:induction false} AnotherWrite(s: State, i: nat, ok: bool)
    requires Shape(s) && Tracked(s) && WritesOk(s) && i < THREAD_MAX && SinkLocal(s, s.sinks[i], ok).1.Writes?
    ensures WritesOk(SinkNext(s, i, ok))
  {
    var e := SinkLocal(s, s.sinks[i], ok).1;
    AnotherWriteOk(s, SinkNext(s, i, ok), i, e.rec, e.handle);
  }

  lemma {:induction false} StepWritesOk(s: State, a: Action)
    requires Shape(s) && Tracked(s) && Unopened(s) && WritesOk(s)
    ensures WritesOk(Next(s, a))
  {
    if !s.crashed {
      match a
      case Create =>
        CreateKeepsWriting(s);
        KeptWritesOk(s, Next(s, a));
      case SinkStep(i, ok) => if i < THREAD_MAX { SinkWritesOk(s, i, ok); }
      case SourceStep(i, ok) =>
        if i < THREAD_MAX {
          SourceShows(s, i, ok);
          ReleasedStays(s, Next(s, a), SourceLocal(s, s.sources[i], ok).1, SourceHands(i), SourceHands(i), false);
          SinksStand(s, a);
          StaysInShape(s, a);
          KeptWritesOk(s, Next(s, a));
        }
      case ParserStep(i, ok) =>
        if i < THREAD_MAX {
          var e := ParserLocal(s, s.parsers[i], ok).1;
          ParserShows(s, i, ok);
          ReleasedStays(s, Next(s, a), e, ParserHands(i), ParserStream(i), FromStream(s.parsers[i], e));
          SinksStand(s, a);
          StaysInShape(s, a);
          KeptWritesOk(s, Next(s, a));
        }
      case _ =>
        SinksStand(s, a);
        StaysInShape(s, a);
        KeptWritesOk(s, Next(s, a));
    }
  }

  // ---- whole runs ----

  ghost predicate Inv(s: State) {
    Shape(s) && !s.crashed && ThreadsOk(s) && SeenOk(s) && Tracked(s) && WritesOk(s)
  }

  lemma {:induction false} InvUnopened(s: State)
    requires ThreadsOk(s)
    ensures Unopened(s)
  {
    forall i | 0 <= i < |s.parsers| && s.parsers[i].at.ParserOpening? ensures Queued(s.parsers[i].stream) == [] {
      assert ParserOk(s, s.parsers[i]);
    }
    forall i | 0 <= i < |s.sinks| && s.sinks[i].at.SinkOpening? ensures Queued(s.sinks[i].stream) == [] {
      assert SinkOk(s, s.sinks[i]);
    }
  }

  lemma {:induction false} InitInv(c: Config)
    ensures Inv(InitRuntimeEnviron(c))
  {
    var s := InitRuntimeEnviron(c);
    forall p ensures TrackedAt(s, p) { assert Contents(s, p) == []; }
  }

  lemma {:induction false} StepKeepsInv(s: State, a: Action)
    requires Inv(s)
    ensures Inv(Next(s, a))
  {
    InvUnopened(s);
    StaysInShape(s, a);
    StepStaysOk(s, a);
    StepMovesForward(s, a);
    StepWritesOk(s, a);
  }

  lemma {:induction false} RunKeepsInv(s: State, run: seq<Action>)
    requires Inv(s)
    ensures Inv(Exec(s, run))
    decreases |run|
  {
    if run != [] {
      StepKeepsInv(s, run[0]);
      RunKeepsInv(Next(s, run[0]), run[1..]);
    }
  }

  // In every run from InitRuntimeEnviron on, each record read is in exactly one place, once; its
  // buffers are released at most once; it is written at most once to each handle, and to the
  // handles of at most one sink; dispatch offsets are in range at the start of an iteration.
  lemma {:induction false} PipelineIsSafe(c: Config, run: seq<Action>)
    ensures
      var s := Exec(InitRuntimeEnviron(c), run);
      && !s.crashed
      && (forall r :: 0 <= r < |s.place| ==> InOnePlace(s, r))
      && (forall p :: Distinct(Contents(s, p))) && Distinct(s.released)
      && (forall a, b :: 0 <= a < b < |s.writes| ==> s.writes[a] != s.writes[b])
      && (forall a, b :: 0 <= a < b < |s.writes| && s.writes[a].rec == s.writes[b].rec ==>
           s.writes[a].sink == s.writes[b].sink)
      && (forall i :: 0 <= i < THREAD_MAX && s.sources[i].at.SourceLoop? ==> s.sources[i].offset < s.settings.parsers)
      && (forall i :: 0 <= i < THREAD_MAX && s.parsers[i].at.ParserLoop? ==> s.parsers[i].offset < s.settings.sinks)
  {
    InitInv(c);
    RunKeepsInv(InitRuntimeEnviron(c), run);
    var s := Exec(InitRuntimeEnviron(c), run);
    forall r | 0 <= r < |s.place| ensures InOnePlace(s, r) { ExactlyOnePlace(s, r); }
    forall p ensures Distinct(Contents(s, p)) { assert TrackedAt(s, p); }
    assert Distinct(Contents(s, Released));
    forall i | 0 <= i < THREAD_MAX && s.sources[i].at.SourceLoop? ensures s.sources[i].offset < s.settings.parsers {
      assert SourceShape(s, s.sources[i]);
    }
    forall i | 0 <= i < THREAD_MAX && s.parsers[i].at.ParserLoop? ensures s.parsers[i].offset < s.settings.sinks {
      assert ParserShape(s, s.parsers[i]);
    }
  }

  // A thread that is seen running has its channel.
  lemma {:induction false} RunningHasChannel(c: Config, run: seq<Action>, i: nat)
    requires i < THREAD_MAX
    ensures
      var s := Exec(InitRuntimeEnviron(c), run);
      && (s.parsers[i].state.Running? ==> s.parsers[i].stream.Some?)
      && (s.sinks[i].state.Running? ==> s.sinks[i].stream.Some?)
  {
    InitInv(c);
    RunKeepsInv(InitRuntimeEnviron(c), run);
    var s := Exec(InitRuntimeEnviron(c), run);
    assert ParserOk(s, s.parsers[i]) && SinkOk(s, s.sinks[i]);
  }

  // Once a source exists, every configured parser and sink has its channel; once a parser
  // exists, every configured sink.
  lemma {:induction false} ChannelsComeFirst(c: Config, run: seq<Action>, i: nat)
    requires i < THREAD_MAX
    ensures
      var s := Exec(InitRuntimeEnviron(c), run);
      && (!s.sources[i].at.SourceAbsent? ==> forall j :: 0 <= j < s.settings.parsers ==> s.parsers[j].stream.Some?)
      && (!s.sources[i].at.SourceAbsent? || !s.parsers[i].at.ParserAbsent? ==>
           forall j :: 0 <= j < s.settings.sinks ==> s.sinks[j].stream.Some?)
  {
    InitInv(c);
    RunKeepsInv(InitRuntimeEnviron(c), run);
  }

  // A sink that is done with a record has written it to every one of its handles.
  lemma {:induction false} SinkFreesAfterAllWrites(s: State, i: nat, ok: bool, k: nat)
    requires Inv(s) && i < THREAD_MAX && s.sinks[i].at.SinkWriting? && k < s.settings.handles
    requires SinkLocal(s, s.sinks[i], ok).1.Frees?
    ensures Write(i, k, s.sinks[i].at.rec) in s.writes
  {
    assert SinkWrote(s, i, s.sinks[i].at);
  }
}
