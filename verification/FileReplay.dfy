/** From the bytes of the open file to the counters. */
module FileReplay {
  import opened Reader
  import opened Writer
  import opened Runs
  import opened Files
  import opened Framing
  import Theorems

  /** The reader folded over lines. Headers, metadata and whatever a failed write left are lines, too. */
  function ReadLines(lines: seq<string>): Values {
    if lines == [] then map[] else ReadLine(lines[|lines| - 1], ReadLines(lines[..|lines| - 1]))
  }

  /** What a reader makes of a file: of each of its lines, from the first on. */
  function ReadFile(text: string): Values {
    ReadLines(Lines(text))
  }

  lemma LinesRead(lines: seq<string>, line: string)
    ensures ReadLines(lines + [line]) == ReadLine(line, ReadLines(lines))
  {
    assert (lines + [line])[..|lines|] == lines;
  }

  /** From a checkpoint on a line of its own, reading the records is reading the log, whatever lines come
      before it. */
  lemma {:induction false} TailReads(log: Log, garbage: seq<string>)
    requires GoodLog(log) && Based(log)
    ensures ReadLines(garbage + TailLines(log)) == ReadLog(log)
  {
    var before, e := log[..|log| - 1], log[|log| - 1];
    if e.Line? {
      LineAfter(log);
      if IsLine(e, Checkpoint) && !Ragged(before) {
        LinesRead(garbage, e.text);
      } else {
        GoodBefore(log);
        TailReads(before, garbage);
        LinesRead(garbage + TailLines(before), e.text);
        assert garbage + (TailLines(before) + [e.text]) == garbage + TailLines(before) + [e.text];
      }
    } else {
      GoodBefore(log);
      TailReads(before, garbage);
    }
  }

  lemma GoodBefore(log: Log)
    requires GoodLog(log) && log != []
    ensures GoodLog(log[..|log| - 1])
  {
    var before := log[..|log| - 1];
    forall i | 0 <= i < |before| ensures GoodAt(before, i) {
      assert GoodAt(log, i);
      assert before[..i] == log[..i];
    }
  }

  /** Reading a checkpoint gives the same whatever was known. */
  lemma LineAfter(log: Log)
    requires GoodLog(log) && log != [] && log[|log| - 1].Line?
    ensures var e := log[|log| - 1];
      ReadLog(log) == ReadLine(e.text, ReadLog(log[..|log| - 1])) &&
      (IsLine(e, Checkpoint) ==> forall a, b :: ReadLine(e.text, a) == ReadLine(e.text, b))
  {
    Theorems.EventGood(log, |log| - 1);
  }

  lemma {:induction false} BasedIsIntact(log: Log)
    requires Based(log)
    ensures Intact(log)
  {
    var before, e := log[..|log| - 1], log[|log| - 1];
    if !(IsLine(e, Checkpoint) && !Ragged(before)) {
      BasedIsIntact(before);
    }
  }

  /** The last thing written was a checkpoint or a delta, since the header of the open file there was a
      checkpoint on a line of its own, since then nothing failed, and the counters were clean. */
  predicate Settled(w: State) {
    w.open && w.log != [] && IsAnchor(w.log[|w.log| - 1]) && Based(w.log) && CleanLog(w.log)
  }

  /** For every run on samples the collector can build: whenever the writer is settled, reading the open
      file from its first byte on, line by line, torn lines, headers and older blocks included, gives
      the value of every counter of the last sample that found memory in the flattener, and of every
      counter if its record is a checkpoint. */
  lemma FileRecovers(w: State)
    requires TidilyReachable(w) && Settled(w)
    ensures w.file in w.disk && Agrees(ReadFile(w.disk[w.file]), w.log[|w.log| - 1].seen)
    ensures IsLine(w.log[|w.log| - 1], Checkpoint) ==>
              Agrees(ReadFile(w.disk[w.file]), w.log[|w.log| - 1].flat.metrics)
  {
    TidyFramed(w);
    ReachableTracked(w);
    ReachableGood(w);
    BasedIsIntact(w.log);
    Theorems.LastEventReplays(w.log);
    FileReads(w.log, w.disk[w.file]);
  }

  lemma FileReads(log: Log, text: string)
    requires GoodLog(log) && Based(log) && Reads(log, text)
    ensures ReadFile(text) == ReadLog(log)
  {
    var lines, tail := Lines(text), TailLines(log);
    var garbage := lines[..|lines| - |tail|];
    assert lines == garbage + tail;
    TailReads(log, garbage);
  }
}
