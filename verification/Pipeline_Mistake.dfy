/** A run in which a record is freed as an event.

    With one thread of each kind: the source reads a record and sees the parser running, the parser
    is stopped and finds its channel empty, and only then is the record pushed. */
module PipelineMistake {
  import opened Basics
  import opened PipelineMachine
  import opened PipelineRecords

  // A state with one thread of each kind, as far as the run below depends on it.
  predicate Stands(s: State, creator: Creator, source: Source, parser: Parser, sink: Sink) {
    && Shape(s) && !s.crashed && s.creator == creator
    && s.settings == Settings(1, 1, 1, 3, 3, 1) && s.asEvents == []
    && s.sources[0] == source && s.parsers[0] == parser && s.sinks[0] == sink
    && |s.place| == |SourceHolds(source.at)|
  }

  // A run of five actions, step by step.
  lemma {:induction false} Five(s: State, run: seq<Action>)
    requires Shape(s) && |run| == 5
    ensures
      && Shape(Next(s, run[0]))
      && Shape(Next(Next(s, run[0]), run[1]))
      && Shape(Next(Next(Next(s, run[0]), run[1]), run[2]))
      && Shape(Next(Next(Next(Next(s, run[0]), run[1]), run[2]), run[3]))
      && Exec(s, run) == Next(Next(Next(Next(Next(s, run[0]), run[1]), run[2]), run[3]), run[4])
  {
    var s1 := Next(s, run[0]);
    StaysInShape(s, run[0]);
    StaysInShape(s1, run[1]);
    var s2 := Next(s1, run[1]);
    StaysInShape(s2, run[2]);
    var s3 := Next(s2, run[2]);
    StaysInShape(s3, run[3]);
    var s4 := Next(s3, run[3]);
    StaysInShape(s4, run[4]);
    assert Exec(s, run) == Exec(s1, run[1..]);
    assert run[1..][1..] == run[2..] && run[2..][1..] == run[3..] && run[3..][1..] == run[4..] && run[4..][1..] == [];
    assert Exec(s1, run[1..]) == Exec(s2, run[2..]);
    assert Exec(s2, run[2..]) == Exec(s3, run[3..]);
    assert Exec(s3, run[3..]) == Exec(s4, run[4..]);
  }

  lemma {:induction false} ExecAppend(s: State, run: seq<Action>, more: seq<Action>)
    requires Shape(s)
    ensures Exec(s, run + more) == Exec(Exec(s, run), more)
    decreases |run|
  {
    if run == [] {
      assert run + more == more;
    } else {
      StaysInShape(s, run[0]);
      assert (run + more)[1..] == run[1..] + more;
      ExecAppend(Next(s, run[0]), run[1..], more);
    }
  }

  lemma {:induction false} SinkStarts(s: State) returns (run: seq<Action>)
    requires Stands(s, SpawnSink(0), Source(Stop, SourceAbsent, 0),
                    Parser(Stop, ParserAbsent, 0, None), Sink(Stop, SinkAbsent, None))
    ensures Stands(Exec(s, run), SpawnParser(0), Source(Stop, SourceAbsent, 0),
                   Parser(Stop, ParserAbsent, 0, None), Sink(Running, SinkLoop, Some([])))
  {
    run := [Create, SinkStep(0, true), SinkStep(0, true), Create, Create];
    Five(s, run);
    var s3 := Next(Next(Next(s, run[0]), run[1]), run[2]);
    assert Stands(s3, AwaitSink(0), Source(Stop, SourceAbsent, 0),
                  Parser(Stop, ParserAbsent, 0, None), Sink(Running, SinkLoop, Some([])));
  }

  lemma {:induction false} ParserStarts(s: State) returns (run: seq<Action>)
    requires Stands(s, SpawnParser(0), Source(Stop, SourceAbsent, 0),
                    Parser(Stop, ParserAbsent, 0, None), Sink(Running, SinkLoop, Some([])))
    ensures Stands(Exec(s, run), SpawnSource(0), Source(Stop, SourceAbsent, 0),
                   Parser(Running, ParserLoop, 0, Some([])), Sink(Running, SinkLoop, Some([])))
  {
    run := [Create, ParserStep(0, true), ParserStep(0, true), Create, Create];
    Five(s, run);
    var s3 := Next(Next(Next(s, run[0]), run[1]), run[2]);
    assert Stands(s3, AwaitParser(0), Source(Stop, SourceAbsent, 0),
                  Parser(Running, ParserLoop, 0, Some([])), Sink(Running, SinkLoop, Some([])));
  }

  // The source reads a record and sees the parser running.
  lemma {:induction false} SourceReadsOne(s: State) returns (run: seq<Action>)
    requires Stands(s, SpawnSource(0), Source(Stop, SourceAbsent, 0),
                    Parser(Running, ParserLoop, 0, Some([])), Sink(Running, SinkLoop, Some([])))
    ensures Stands(Exec(s, run), AwaitSource(0), Source(Running, SourcePush(0), 0),
                   Parser(Running, ParserLoop, 0, Some([])), Sink(Running, SinkLoop, Some([])))
  {
    run := [Create, SourceStep(0, true), SourceStep(0, true), SourceStep(0, true), SourceStep(0, true)];
    Five(s, run);
    var s3 := Next(Next(Next(s, run[0]), run[1]), run[2]);
    assert Stands(s3, AwaitSource(0), Source(Running, SourceReading, 0),
                  Parser(Running, ParserLoop, 0, Some([])), Sink(Running, SinkLoop, Some([])));
  }

  // A record that comes in the second loop.
  lemma {:induction false} LateRecord(s: State)
    requires Stands(s, AwaitSource(0), Source(Running, SourcePush(0), 0),
                    Parser(Stop, ParserDrainingEvents, 0, Some([])), Sink(Running, SinkLoop, Some([])))
    ensures
      var s' := Next(s, SourceStep(0, true));
      Shape(s') && Next(s', ParserStep(0, true)).asEvents == [0]
  {
    StaysInShape(s, SourceStep(0, true));
  }

  // The parser is stopped, finds its channel empty, and then gets the record.
  lemma {:induction false} ParserMistakes(s: State) returns (run: seq<Action>)
    requires Stands(s, AwaitSource(0), Source(Running, SourcePush(0), 0),
                    Parser(Running, ParserLoop, 0, Some([])), Sink(Running, SinkLoop, Some([])))
    ensures Exec(s, run).asEvents == [0]
  {
    run := [StopParser(0), ParserStep(0, true), ParserStep(0, true), SourceStep(0, true), ParserStep(0, true)];
    Five(s, run);
    var s3 := Next(Next(Next(s, run[0]), run[1]), run[2]);
    assert Stands(s3, AwaitSource(0), Source(Running, SourcePush(0), 0),
                  Parser(Stop, ParserDrainingEvents, 0, Some([])), Sink(Running, SinkLoop, Some([])));
    LateRecord(s3);
  }

  lemma {:induction false} MistakeIsReachable() returns (run: seq<Action>)
    ensures Exec(InitRuntimeEnviron(Config(1, 1, 1, 4, 4, 1)), run).asEvents == [0]
  {
    var s := InitRuntimeEnviron(Config(1, 1, 1, 4, 4, 1));
    run := SinkStarts(s);
    var more := ParserStarts(Exec(s, run));
    ExecAppend(s, run, more);
    run := run + more;
    more := SourceReadsOne(Exec(s, run));
    ExecAppend(s, run, more);
    run := run + more;
    more := ParserMistakes(Exec(s, run));
    ExecAppend(s, run, more);
    run := run + more;
  }
}
