/** Each record is in exactly one place, and every step moves at most one, forwards. */
module PipelineRecords {
  import opened Basics
  import opened PipelineMachine

  function SourceHolds(at: SourceAt): seq<Record> {
    match at case SourceScan(r) => [r] case SourcePush(r) => [r] case _ => []
  }

  function ParserHolds(at: ParserAt): seq<Record> {
    match at case ParserHandling(r) => [r] case ParserScan(r) => [r] case ParserPush(r) => [r] case _ => []
  }

  function SinkHolds(at: SinkAt): seq<Record> { match at case SinkWriting(r, _) => [r] case _ => [] }

  function Queued(stream: Option<seq<Record>>): seq<Record> {
    match stream case None => [] case Some(q) => q
  }

  // What is at a place, read off the threads and channels themselves.
  function Contents(s: State, p: Place): seq<Record> {
    match p
    case SourceHands(i) => if i < |s.sources| then SourceHolds(s.sources[i].at) else []
    case ParserStream(i) => if i < |s.parsers| then Queued(s.parsers[i].stream) else []
    case ParserHands(i) => if i < |s.parsers| then ParserHolds(s.parsers[i].at) else []
    case SinkStream(i) => if i < |s.sinks| then Queued(s.sinks[i].stream) else []
    case SinkHands(i) => if i < |s.sinks| then SinkHolds(s.sinks[i].at) else []
    case Released => s.released
    case FreedAsEvent => s.asEvents
  }

  predicate TrackedAt(s: State, p: Place) {
    && Distinct(Contents(s, p))
    && forall r :: r in Contents(s, p) ==> r < |s.place| && s.place[r] == p
  }

  // Every record that was read is at its place, once, and nowhere else.
  ghost predicate Tracked(s: State) {
    && (forall p :: TrackedAt(s, p))
    && (forall r :: 0 <= r < |s.place| ==> r in Contents(s, s.place[r]))
  }

  ghost predicate InOnePlace(s: State, r: Record) {
    exists p :: r in Contents(s, p) && forall q :: r in Contents(s, q) ==> q == p
  }

  // The same without the history variable.
  lemma {:induction false} ExactlyOnePlace(s: State, r: Record)
    requires Tracked(s) && r < |s.place|
    ensures InOnePlace(s, r)
  {
    var p := s.place[r];
    forall q | r in Contents(s, q) ensures q == p { assert TrackedAt(s, q); }
  }

  // ---- moving one record ----

  ghost predicate Same(s: State, s': State) {
    s'.place == s.place && forall p :: Contents(s', p) == Contents(s, p)
  }

  ghost predicate Added(s: State, s': State, here: Place) {
    && s'.place == s.place + [here]
    && Contents(s, here) == [] && Contents(s', here) == [|s.place|]
    && forall p :: p != here ==> Contents(s', p) == Contents(s, p)
  }

  ghost predicate Moved(s: State, s': State, r: Record, from: Place, to: Place) {
    && from != to && r < |s.place| && s'.place == s.place[r := to]
    && Contents(s, from) == [r] + Contents(s', from)
    && Contents(s', to) == Contents(s, to) + [r]
    && forall p :: p != from && p != to ==> Contents(s', p) == Contents(s, p)
  }

  lemma {:induction false} SameKeepsTracked(s: State, s': State)
    requires Tracked(s) && Same(s, s')
    ensures Tracked(s')
  {
    forall p ensures TrackedAt(s', p) { assert TrackedAt(s, p); }
  }

  lemma {:induction false} AddedKeepsTracked(s: State, s': State, here: Place)
    requires Tracked(s) && Added(s, s', here)
    ensures Tracked(s')
  {
    forall p ensures TrackedAt(s', p) { assert TrackedAt(s, p); }
    forall r | 0 <= r < |s'.place| ensures r in Contents(s', s'.place[r]) {
      if r < |s.place| { assert s'.place[r] == s.place[r]; }
    }
  }

  lemma {:induction false} MovedKeepsTracked(s: State, s': State, r: Record, from: Place, to: Place)
    requires Tracked(s) && Moved(s, s', r, from, to)
    ensures Tracked(s')
  {
    assert TrackedAt(s, from) && TrackedAt(s, to);
    assert Contents(s, from)[0] == r;
    forall p ensures TrackedAt(s', p) { MovedKeepsPlace(s, s', r, from, to, p); }
    forall t | 0 <= t < |s'.place| ensures t in Contents(s', s'.place[t]) {
      if t != r { assert t in Contents(s, s.place[t]); }
    }
  }

  lemma {:induction false} MovedKeepsPlace(s: State, s': State, r: Record, from: Place, to: Place, p: Place)
    requires Tracked(s) && Moved(s, s', r, from, to)
    ensures TrackedAt(s', p)
  {
    assert TrackedAt(s, p) && TrackedAt(s, from);
    assert Contents(s, from)[0] == r;
    if p == from {
      var q, q' := Contents(s, p), Contents(s', p);
      assert forall k :: 0 <= k < |q'| ==> q'[k] == q[k + 1];
      forall t | t in q' ensures t != r && t in q {
        var k :| 0 <= k < |q'| && q'[k] == t;
        assert q[0] != q[k + 1];
      }
    } else if p == to {
      assert r !in Contents(s, p);
    }
  }

  // ---- places in the order records pass them ----

  function Stage(p: Place): nat {
    match p
    case SourceHands(_) => 0
    case ParserStream(_) => 1
    case ParserHands(_) => 2
    case SinkStream(_) => 3
    case SinkHands(_) => 4
    case Released => 5
    case FreedAsEvent => 5
  }

  // At most one record moves, and only forwards; it may be new, in the hands of a source.
  ghost predicate Forward(s: State, s': State) {
    || Same(s, s')
    || (exists i :: Added(s, s', SourceHands(i)))
    || (exists r, p, q :: Stage(p) < Stage(q) && Moved(s, s', r, p, q))
  }

  // ---- the contents after a step ----

  // Where an effect leaves a record.
  function Lands(e: Effect): Place {
    match e
    case ToParser(_, j) => ParserStream(j)
    case ToSink(_, j) => SinkStream(j)
    case FreesAsEvent(_) => FreedAsEvent
    case _ => Released
  }

  predicate Delivers(e: Effect) { e.ToParser? || e.ToSink? || e.Frees? || e.FreesAsEvent? }

  predicate TargetExists(s: State, e: Effect) {
    && InRange(s, e)
    && (e.ToParser? ==> s.parsers[e.j].stream.Some?)
    && (e.ToSink? ==> s.sinks[e.j].stream.Some?)
  }

  lemma {:induction false} PerformContents(s: State, i: nat, here: Place, e: Effect, p: Place)
    requires TargetExists(s, e)
    ensures Contents(Perform(s, i, here, e), p) ==
      if Delivers(e) && p == Lands(e) then Contents(s, p) + [e.rec] else Contents(s, p)
  {}

  lemma {:induction false} SourceContents(s: State, i: nat, x: Source, p: Place)
    requires i < |s.sources|
    ensures Contents(PutSource(s, i, x), p) == if p == SourceHands(i) then SourceHolds(x.at) else Contents(s, p)
  {}

  lemma {:induction false} ParserContents(s: State, i: nat, x: Parser, p: Place)
    requires i < |s.parsers|
    ensures Contents(PutParser(s, i, x), p) ==
      if p == ParserHands(i) then ParserHolds(x.at)
      else if p == ParserStream(i) then Queued(x.stream)
      else Contents(s, p)
  {}

  lemma {:induction false} SinkContents(s: State, i: nat, x: Sink, p: Place)
    requires i < |s.sinks|
    ensures Contents(PutSink(s, i, x), p) ==
      if p == SinkHands(i) then SinkHolds(x.at)
      else if p == SinkStream(i) then Queued(x.stream)
      else Contents(s, p)
  {}

  // ---- what each thread does with records ----

  // A source gets a record by reading, and gives it to a parser or frees it.
  lemma {:induction false} SourceLocally(s: State, x: Source, ok: bool)
    requires Sizes(s) && SourceShape(s, x)
    ensures
      var (x', e) := SourceLocal(s, x, ok);
      && TargetExists(s, e)
      && (e.Quiet? || e.Crashes? || e.Reads? || e.ToParser? || e.Frees?)
      && (e.Quiet? || e.Crashes? ==> SourceHolds(x'.at) == SourceHolds(x.at))
      && (e.Reads? ==> SourceHolds(x.at) == [] && SourceHolds(x'.at) == [|s.place|])
      && (Delivers(e) ==> SourceHolds(x.at) == [e.rec] && SourceHolds(x'.at) == [])
  {}

  // A parser takes records from its channel, gives them to a sink or frees them, and after it
  // was stopped frees those left in the channel.
  predicate FromStream(x: Parser, e: Effect) { e.Takes? || e.FreesAsEvent? || (e.Frees? && x.at.ParserDraining?) }

  lemma {:induction false} ParserLocally(s: State, x: Parser, ok: bool)
    requires Sizes(s) && ParserShape(s, x)
    ensures
      var (x', e) := ParserLocal(s, x, ok);
      && TargetExists(s, e)
      && (e.Quiet? || e.Crashes? || e.Takes? || e.ToSink? || e.Frees? || e.FreesAsEvent?)
      && (e.Quiet? || e.Crashes? ==> ParserHolds(x'.at) == ParserHolds(x.at))
      && (FromStream(x, e) ==> Queued(x.stream) == [e.rec] + Queued(x'.stream))
      && (!FromStream(x, e) && !x.at.ParserOpening? ==> Queued(x'.stream) == Queued(x.stream))
      && (e.Takes? ==> ParserHolds(x.at) == [] && ParserHolds(x'.at) == [e.rec])
      && (FromStream(x, e) && !e.Takes? ==> ParserHolds(x'.at) == ParserHolds(x.at))
      && (Delivers(e) && !FromStream(x, e) ==> ParserHolds(x.at) == [e.rec] && ParserHolds(x'.at) == [])
      && (x.at.ParserOpening? ==> e.Quiet? && Queued(x'.stream) == [])
  {}

  predicate SinkFromStream(x: Sink, e: Effect) { e.Takes? || (e.Frees? && x.at.SinkDraining?) }

  lemma {:induction false} SinkLocally(s: State, x: Sink, ok: bool)
    ensures
      var (x', e) := SinkLocal(s, x, ok);
      && TargetExists(s, e)
      && (e.Quiet? || e.Crashes? || e.Takes? || e.Writes? || e.Frees?)
      && (e.Quiet? || e.Crashes? || e.Writes? ==> SinkHolds(x'.at) == SinkHolds(x.at))
      && (SinkFromStream(x, e) ==> Queued(x.stream) == [e.rec] + Queued(x'.stream))
      && (!SinkFromStream(x, e) && !x.at.SinkOpening? ==> Queued(x'.stream) == Queued(x.stream))
      && (e.Takes? ==> SinkHolds(x.at) == [] && SinkHolds(x'.at) == [e.rec])
      && (e.Frees? && SinkFromStream(x, e) ==> SinkHolds(x'.at) == SinkHolds(x.at))
      && (e.Frees? && !SinkFromStream(x, e) ==> SinkHolds(x.at) == [e.rec] && SinkHolds(x'.at) == [])
      && (x.at.SinkOpening? ==> e.Quiet? && Queued(x'.stream) == [])
  {}

  // A channel that is not created yet holds nothing.
  predicate Unopened(s: State) {
    && (forall i :: 0 <= i < |s.parsers| && s.parsers[i].at.ParserOpening? ==> Queued(s.parsers[i].stream) == [])
    && (forall i :: 0 <= i < |s.sinks| && s.sinks[i].at.SinkOpening? ==> Queued(s.sinks[i].stream) == [])
  }

  // What an effect does to the places, in a thread with these hands and this channel.
  ghost predicate Shows(s: State, s': State, e: Effect, here: Place, stream: Place, drains: bool) {
    match e
    case Quiet | Crashes | Writes(_, _) => Same(s, s')
    case Reads => Added(s, s', here)
    case Takes(r) => Moved(s, s', r, stream, here)
    case _ => Moved(s, s', e.rec, if drains then stream else here, Lands(e))
  }

  lemma {:induction false} RecordIsPlaced(s: State, p: Place, r: Record)
    requires Tracked(s) && r in Contents(s, p)
    ensures r < |s.place|
  {
    assert TrackedAt(s, p);
  }

  // What every place holds after a step that leaves `hands` and `queue` with the thread.
  ghost predicate Leaves(
    s: State, s': State, e: Effect, here: Place, stream: Place, hands: seq<Record>, queue: seq<Record>) {
    forall p :: Contents(s', p) ==
      if Delivers(e) && p == Lands(e) then Contents(s, p) + [e.rec]
      else if p == here then hands else if p == stream then queue else Contents(s, p)
  }

  // What Perform does to the places of records.
  predicate Places(s: State, s': State, e: Effect, here: Place) {
    && (e.Quiet? || e.Crashes? || e.Writes? ==> s'.place == s.place)
    && (e.Takes? ==> e.rec < |s.place| && s'.place == s.place[e.rec := here])
    && (Delivers(e) ==> e.rec < |s.place| && s'.place == s.place[e.rec := Lands(e)])
  }

  // A thread with a channel shows its effect, if what it has left agrees with it.
  lemma {:induction false} LeavesShows(
    s: State, s': State, e: Effect, here: Place, stream: Place, drains: bool, hands: seq<Record>, queue: seq<Record>)
    requires Leaves(s, s', e, here, stream, hands, queue) && Places(s, s', e, here) && !e.Reads? && here != stream
    requires Delivers(e) ==> Lands(e) != here && Lands(e) != stream
    requires drains ==> Delivers(e) || e.Takes?
    requires drains || e.Takes? ==> Contents(s, stream) == [e.rec] + queue
    requires !drains && !e.Takes? ==> queue == Contents(s, stream)
    requires e.Takes? ==> Contents(s, here) == [] && hands == [e.rec]
    requires Delivers(e) && !drains ==> Contents(s, here) == [e.rec] && hands == []
    requires (Delivers(e) && drains) || e.Quiet? || e.Crashes? || e.Writes? ==> hands == Contents(s, here)
    ensures Shows(s, s', e, here, stream, drains)
  {}

  lemma {:induction false} SourceShows(s: State, i: nat, ok: bool)
    requires Shape(s) && Tracked(s) && i < THREAD_MAX
    ensures
      var e := SourceLocal(s, s.sources[i], ok).1;
      Shows(s, SourceNext(s, i, ok), e, SourceHands(i), SourceHands(i), false)
  {
    var (x, e) := SourceLocal(s, s.sources[i], ok);
    var here, s1 := SourceHands(i), PutSource(s, i, x);
    SourceLocally(s, s.sources[i], ok);
    assert Contents(s, here) == SourceHolds(s.sources[i].at);
    if Delivers(e) { RecordIsPlaced(s, here, e.rec); }
    forall p ensures Contents(Perform(s1, i, here, e), p) ==
      if Delivers(e) && p == Lands(e) then Contents(s, p) + [e.rec]
      else if p == here then SourceHolds(x.at) else Contents(s, p)
    {
      PerformContents(s1, i, here, e, p);
      SourceContents(s, i, x, p);
    }
  }

  lemma {:induction false} ParserAfter(s: State, i: nat, ok: bool, p: Place)
    requires Shape(s) && i < THREAD_MAX
    ensures
      var (x, e) := ParserLocal(s, s.parsers[i], ok);
      Contents(ParserNext(s, i, ok), p) ==
        if Delivers(e) && p == Lands(e) then Contents(s, p) + [e.rec]
        else if p == ParserHands(i) then ParserHolds(x.at)
        else if p == ParserStream(i) then Queued(x.stream)
        else Contents(s, p)
  {
    var (x, e) := ParserLocal(s, s.parsers[i], ok);
    ParserLocally(s, s.parsers[i], ok);
    PerformContents(PutParser(s, i, x), i, ParserHands(i), e, p);
    ParserContents(s, i, x, p);
  }

  lemma {:induction false} ParserShows(s: State, i: nat, ok: bool)
    requires Shape(s) && Tracked(s) && Unopened(s) && i < THREAD_MAX
    ensures
      var e := ParserLocal(s, s.parsers[i], ok).1;
      Shows(s, ParserNext(s, i, ok), e, ParserHands(i), ParserStream(i), FromStream(s.parsers[i], e))
  {
    var (x, e) := ParserLocal(s, s.parsers[i], ok);
    var here, stream, s' := ParserHands(i), ParserStream(i), ParserNext(s, i, ok);
    ParserLocally(s, s.parsers[i], ok);
    assert Contents(s, here) == ParserHolds(s.parsers[i].at) && Contents(s, stream) == Queued(s.parsers[i].stream);
    if e.Takes? || Delivers(e) { RecordIsPlaced(s, if FromStream(s.parsers[i], e) then stream else here, e.rec); }
    forall p ensures Contents(s', p) ==
      if Delivers(e) && p == Lands(e) then Contents(s, p) + [e.rec]
      else if p == here then ParserHolds(x.at) else if p == stream then Queued(x.stream) else Contents(s, p)
    {
      ParserAfter(s, i, ok, p);
    }
    LeavesShows(s, s', e, here, stream, FromStream(s.parsers[i], e), ParserHolds(x.at), Queued(x.stream));
  }

  lemma {:induction false} SinkAfter(s: State, i: nat, ok: bool, p: Place)
    requires Shape(s) && i < THREAD_MAX
    ensures
      var (x, e) := SinkLocal(s, s.sinks[i], ok);
      Contents(SinkNext(s, i, ok), p) ==
        if Delivers(e) && p == Lands(e) then Contents(s, p) + [e.rec]
        else if p == SinkHands(i) then SinkHolds(x.at)
        else if p == SinkStream(i) then Queued(x.stream)
        else Contents(s, p)
  {
    var (x, e) := SinkLocal(s, s.sinks[i], ok);
    SinkLocally(s, s.sinks[i], ok);
    PerformContents(PutSink(s, i, x), i, SinkHands(i), e, p);
    SinkContents(s, i, x, p);
  }

  lemma {:induction false} SinkShows(s: State, i: nat, ok: bool)
    requires Shape(s) && Tracked(s) && Unopened(s) && i < THREAD_MAX
    ensures
      var e := SinkLocal(s, s.sinks[i], ok).1;
      Shows(s, SinkNext(s, i, ok), e, SinkHands(i), SinkStream(i), SinkFromStream(s.sinks[i], e))
  {
    var (x, e) := SinkLocal(s, s.sinks[i], ok);
    var here, stream, s' := SinkHands(i), SinkStream(i), SinkNext(s, i, ok);
    SinkLocally(s, s.sinks[i], ok);
    assert Contents(s, here) == SinkHolds(s.sinks[i].at) && Contents(s, stream) == Queued(s.sinks[i].stream);
    if e.Takes? || e.Frees? { RecordIsPlaced(s, if SinkFromStream(s.sinks[i], e) then stream else here, e.rec); }
    forall p ensures Contents(s', p) ==
      if Delivers(e) && p == Lands(e) then Contents(s, p) + [e.rec]
      else if p == here then SinkHolds(x.at) else if p == stream then Queued(x.stream) else Contents(s, p)
    {
      SinkAfter(s, i, ok, p);
    }
    LeavesShows(s, s', e, here, stream, SinkFromStream(s.sinks[i], e), SinkHolds(x.at), Queued(x.stream));
  }

  // Creating and stopping threads moves nothing.
  lemma {:induction false} OthersShow(s: State, a: Action)
    requires Shape(s) && !s.crashed && !a.SourceStep? && !a.ParserStep? && !a.SinkStep?
    ensures Same(s, Next(s, a))
  {
    var s' := Next(s, a);
    forall p ensures Contents(s', p) == Contents(s, p) { OthersKeepPlace(s, a, p); }
  }

  lemma {:induction false} OthersKeepPlace(s: State, a: Action, p: Place)
    requires Shape(s) && !s.crashed && !a.SourceStep? && !a.ParserStep? && !a.SinkStep?
    ensures Contents(Next(s, a), p) == Contents(s, p) && Next(s, a).place == s.place
  {
    match a
    case StopSource(i) => if i < THREAD_MAX { SourceContents(s, i, s.sources[i].(state := Stop), p); }
    case StopParser(i) => if i < THREAD_MAX { ParserContents(s, i, s.parsers[i].(state := Stop), p); }
    case StopSink(i) => if i < THREAD_MAX { SinkContents(s, i, s.sinks[i].(state := Stop), p); }
    case Create => CreateKeepsPlace(s, p);
  }

  lemma {:induction false} StartSinkKeepsPlace(s: State, i: nat, p: Place)
    requires i < |s.sinks| && SinkHolds(s.sinks[i].at) == []
    ensures Contents(StartSink(s, i), p) == Contents(s, p)
  {
    SinkContents(s, i, s.sinks[i].(state := Init, at := SinkOpening), p);
  }

  lemma {:induction false} StartParserKeepsPlace(s: State, i: nat, p: Place)
    requires i < |s.parsers| && ParserHolds(s.parsers[i].at) == []
    ensures Contents(StartParser(s, i), p) == Contents(s, p)
  {
    ParserContents(s, i, s.parsers[i].(state := Init, at := ParserOpening), p);
  }

  lemma {:induction false} StartSourceKeepsPlace(s: State, i: nat, p: Place)
    requires i < |s.sources| && SourceHolds(s.sources[i].at) == []
    ensures Contents(StartSource(s, i), p) == Contents(s, p)
  {
    SourceContents(s, i, s.sources[i].(state := Init, at := SourceOpening), p);
  }

  lemma {:induction false} CreateKeepsPlace(s: State, p: Place)
    requires Shape(s)
    ensures Contents(CreateStep(s), p) == Contents(s, p) && CreateStep(s).place == s.place
  {
    match s.creator
    case SpawnSink(i) => if i < s.settings.sinks { StartSinkKeepsPlace(s, i, p); }
    case SpawnParser(i) => if i < s.settings.parsers { StartParserKeepsPlace(s, i, p); }
    case SpawnSource(i) => if i < s.settings.sources { StartSourceKeepsPlace(s, i, p); }
    case _ => {}
  }

  // Every step keeps the records tracked.
  lemma {:induction false} ShownIsTracked(s: State, s': State, e: Effect, here: Place, stream: Place, drains: bool)
    requires Tracked(s) && Shows(s, s', e, here, stream, drains)
    ensures Tracked(s')
  {
    match e
    case Quiet | Crashes | Writes(_, _) => SameKeepsTracked(s, s');
    case Reads => AddedKeepsTracked(s, s', here);
    case Takes(r) => MovedKeepsTracked(s, s', r, stream, here);
    case _ => MovedKeepsTracked(s, s', e.rec, if drains then stream else here, Lands(e));
  }

  lemma {:induction false} ShownIsForward(s: State, s': State, e: Effect, here: Place, stream: Place, drains: bool)
    requires Shows(s, s', e, here, stream, drains)
    requires e.Reads? ==> here.SourceHands?
    requires e.Takes? ==> Stage(stream) < Stage(here)
    requires Delivers(e) ==> Stage(here) < Stage(Lands(e)) && Stage(stream) < Stage(Lands(e))
    ensures Forward(s, s')
  {
    match e
    case Quiet | Crashes | Writes(_, _) => {}
    case Reads => assert Added(s, s', SourceHands(here.i));
    case Takes(r) => assert Stage(stream) < Stage(here) && Moved(s, s', r, stream, here);
    case _ =>
      var from := if drains then stream else here;
      assert Stage(from) < Stage(Lands(e)) && Moved(s, s', e.rec, from, Lands(e));
  }

  // Every step moves at most one record forwards, and keeps all of them tracked.
  lemma {:induction false} StepMovesForward(s: State, a: Action)
    requires Shape(s) && Tracked(s) && Unopened(s)
    ensures Tracked(Next(s, a)) && Forward(s, Next(s, a))
  {
    if !s.crashed {
      match a
      case SourceStep(i, ok) => if i < THREAD_MAX { SourceForward(s, i, ok); }
      case ParserStep(i, ok) => if i < THREAD_MAX { ParserForward(s, i, ok); }
      case SinkStep(i, ok) => if i < THREAD_MAX { SinkForward(s, i, ok); }
      case _ =>
        OthersShow(s, a);
        SameKeepsTracked(s, Next(s, a));
    }
  }

  lemma {:induction false} SourceForward(s: State, i: nat, ok: bool)
    requires Shape(s) && Tracked(s) && i < THREAD_MAX
    ensures Tracked(SourceNext(s, i, ok)) && Forward(s, SourceNext(s, i, ok))
  {
    var e := SourceLocal(s, s.sources[i], ok).1;
    SourceLocally(s, s.sources[i], ok);
    SourceShows(s, i, ok);
    ShownIsTracked(s, SourceNext(s, i, ok), e, SourceHands(i), SourceHands(i), false);
    ShownIsForward(s, SourceNext(s, i, ok), e, SourceHands(i), SourceHands(i), false);
  }

  lemma {:induction false} ParserForward(s: State, i: nat, ok: bool)
    requires Shape(s) && Tracked(s) && Unopened(s) && i < THREAD_MAX
    ensures Tracked(ParserNext(s, i, ok)) && Forward(s, ParserNext(s, i, ok))
  {
    var e := ParserLocal(s, s.parsers[i], ok).1;
    ParserLocally(s, s.parsers[i], ok);
    ParserShows(s, i, ok);
    ShownIsTracked(s, ParserNext(s, i, ok), e, ParserHands(i), ParserStream(i), FromStream(s.parsers[i], e));
    ShownIsForward(s, ParserNext(s, i, ok), e, ParserHands(i), ParserStream(i), FromStream(s.parsers[i], e));
  }

  lemma {:induction false} SinkForward(s: State, i: nat, ok: bool)
    requires Shape(s) && Tracked(s) && Unopened(s) && i < THREAD_MAX
    ensures Tracked(SinkNext(s, i, ok)) && Forward(s, SinkNext(s, i, ok))
  {
    var e := SinkLocal(s, s.sinks[i], ok).1;
    SinkLocally(s, s.sinks[i], ok);
    SinkShows(s, i, ok);
    ShownIsTracked(s, SinkNext(s, i, ok), e, SinkHands(i), SinkStream(i), SinkFromStream(s.sinks[i], e));
    ShownIsForward(s, SinkNext(s, i, ok), e, SinkHands(i), SinkStream(i), SinkFromStream(s.sinks[i], e));
  }
}
