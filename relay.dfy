/**
 * The body of the chat route's response stream: it reads the upstream reply
 * chunk by chunk, splits each chunk into lines, parses each non-blank line
 * as a JSON frame, forwards every non-empty `message.content` to the client,
 * accumulates the same text, and stops at the first frame marked `done`, at
 * the end of the upstream body, or at a read error.
 */
module Relay {
  import opened Wrappers
  import opened Text

  /** A parsed upstream line: `message.content` ("" when absent or empty) and whether `done` is truthy. */
  datatype Frame = Frame(content: string, done: bool)

  /** What one `reader.read()` yields: decoded text, the end of the body, or a thrown error. */
  datatype ReadEvent =
    | Chunk(text: string)
    | ReaderDone
    | ReadAbort     // the read threw an `AbortError`: the client went away
    | ReadFailure   // the read threw any other error

  /** Why the read loop stopped. */
  datatype LoopExit = DoneFrame | ReaderEnd | AbortExit | ErrorExit

  /** How the client's stream ends: `controller.close()` or `controller.error(...)`. */
  datatype StreamEnd = Closed | Errored

  /** What a run of lines forwards, and whether it met a `done` frame. */
  datatype Batch = Batch(pieces: seq<string>, done: bool)

  /** What the whole loop forwards, and why it stopped. */
  datatype Outcome = Outcome(pieces: seq<string>, exit: LoopExit)

  /** Only a non-abort error makes the client's stream fail; every other exit closes it. */
  function EndOf(exit: LoopExit): (end: StreamEnd)
    ensures end == Errored <==> exit == ErrorExit
  {
    if exit == ErrorExit then Errored else Closed
  }

  /** `chunk.split('\n').filter(line => line.trim())`: the lines of a chunk that are not blank. */
  function Lines(chunk: string): (lines: seq<string>)
    ensures forall i :: 0 <= i < |lines| ==> Trim(lines[i]) != [] && '\n' !in lines[i]
  {
    NonBlank(SplitLines(chunk))
  }

  function NonBlank(ls: seq<string>): (kept: seq<string>)
    ensures forall i :: 0 <= i < |kept| ==> Trim(kept[i]) != [] && kept[i] in ls
  {
    if ls == [] then []
    else
      assert ls == [ls[0]] + ls[1..];
      if Trim(ls[0]) != [] then [ls[0]] + NonBlank(ls[1..])
      else NonBlank(ls[1..])
  }

  /** The piece a frame forwards: its content when that is non-empty, nothing otherwise. */
  function Emitted(f: Frame): (pieces: seq<string>)
    ensures pieces == [] <==> f.content == []
    ensures f.content != [] ==> pieces == [f.content]
  {
    if f.content != [] then [f.content] else []
  }

  /** `b` after `pieces` were forwarded first. */
  function After(pieces: seq<string>, b: Batch): Batch {
    Batch(pieces + b.pieces, b.done)
  }

  /**
   * The lines of one chunk in order: an unparsable line is skipped, a frame
   * forwards its content, and a `done` frame ends the batch after its own
   * content.
   */
  function LinesStep(lines: seq<string>, parse: string -> Option<Frame>): Batch {
    if lines == [] then Batch([], false)
    else match parse(lines[0])
      case None => LinesStep(lines[1..], parse)
      case Some(f) =>
        if f.done then Batch(Emitted(f), true)
        else After(Emitted(f), LinesStep(lines[1..], parse))
  }

  /**
   * The whole read loop over the upstream events; running out of events is
   * the end of the body.
   */
  function Run(events: seq<ReadEvent>, parse: string -> Option<Frame>): Outcome {
    if events == [] then Outcome([], ReaderEnd)
    else match events[0]
      case ReaderDone => Outcome([], ReaderEnd)
      case ReadAbort => Outcome([], AbortExit)
      case ReadFailure => Outcome([], ErrorExit)
      case Chunk(text) =>
        var b := LinesStep(Lines(text), parse);
        if b.done then Outcome(b.pieces, DoneFrame)
        else var rest := Run(events[1..], parse); Outcome(b.pieces + rest.pieces, rest.exit)
  }

  /** The pieces one after another: what the client receives, and `assistantText`. */
  function Concat(pieces: seq<string>): string {
    if pieces == [] then [] else pieces[0] + Concat(pieces[1..])
  }

  lemma {:induction false} ConcatAppend(a: seq<string>, b: seq<string>)
    ensures Concat(a + b) == Concat(a) + Concat(b)
  {
    if a == [] {
      assert a + b == b;
    } else {
      HeadTailOfAppend(a, b);
      ConcatAppend(a[1..], b);
    }
  }

  /** `o` after `pieces` were forwarded first. */
  function Resume(pieces: seq<string>, o: Outcome): Outcome {
    Outcome(pieces + o.pieces, o.exit)
  }

  lemma ResumeTwice(a: seq<string>, b: seq<string>, o: Outcome)
    ensures Resume(a, Resume(b, o)) == Resume(a + b, o)
  {
    AppendAssociates(a, b, o.pieces);
  }

  lemma AfterTwice(a: seq<string>, b: seq<string>, c: Batch)
    ensures After(a, After(b, c)) == After(a + b, c)
  {
    assert a + (b + c.pieces) == (a + b) + c.pieces;
  }

  /** The loop at a chunk: the run so far continues with the chunk's batch, then stops at `done` or goes on after the chunk. */
  lemma ChunkStep(events: seq<ReadEvent>, parse: string -> Option<Frame>, k: nat, before: seq<string>, text: string)
    requires k < |events| && events[k] == Chunk(text)
    requires Run(events, parse) == Resume(before, Run(events[k..], parse))
    ensures var b := LinesStep(Lines(text), parse);
            b.done ==> Run(events, parse) == Outcome(before + b.pieces, DoneFrame)
    ensures var b := LinesStep(Lines(text), parse);
            !b.done ==> Run(events, parse) == Resume(before + b.pieces, Run(events[k + 1..], parse))
  {
    RunAt(events, parse, k);
    var b := LinesStep(Lines(text), parse);
    ResumeTwice(before, b.pieces, Run(events[k + 1..], parse));
  }

  /** One step of `Run` at position `k`. */
  lemma RunAt(events: seq<ReadEvent>, parse: string -> Option<Frame>, k: nat)
    requires k <= |events|
    ensures k == |events| ==> Run(events[k..], parse) == Outcome([], ReaderEnd)
    ensures k < |events| ==> Run(events[k..], parse) == match events[k]
      case ReaderDone => Outcome([], ReaderEnd)
      case ReadAbort => Outcome([], AbortExit)
      case ReadFailure => Outcome([], ErrorExit)
      case Chunk(text) =>
        var b := LinesStep(Lines(text), parse);
        if b.done then Outcome(b.pieces, DoneFrame) else Resume(b.pieces, Run(events[k + 1..], parse))
  {
    if k < |events| {
      assert events[k..][1..] == events[k + 1..];
    }
  }

  /** One step of `LinesStep` at line `j`. */
  lemma LinesStepAt(lines: seq<string>, parse: string -> Option<Frame>, j: nat)
    requires j < |lines|
    ensures LinesStep(lines[j..], parse) == match parse(lines[j])
      case None => LinesStep(lines[j + 1..], parse)
      case Some(f) => if f.done then Batch(Emitted(f), true) else After(Emitted(f), LinesStep(lines[j + 1..], parse))
  {
    assert lines[j..][1..] == lines[j + 1..];
  }

  /** One frame line of the loop: the batch so far grows by what the frame emits, and a `done` frame ends it. */
  lemma FrameStep(lines: seq<string>, parse: string -> Option<Frame>, j: nat, emitted: seq<string>, f: Frame)
    requires j < |lines| && parse(lines[j]) == Some(f)
    requires LinesStep(lines, parse) == After(emitted, LinesStep(lines[j..], parse))
    ensures f.done ==> LinesStep(lines, parse) == Batch(emitted + Emitted(f), true)
    ensures !f.done ==> LinesStep(lines, parse) == After(emitted + Emitted(f), LinesStep(lines[j + 1..], parse))
  {
    LinesStepAt(lines, parse, j);
    AfterTwice(emitted, Emitted(f), LinesStep(lines[j + 1..], parse));
  }

  lemma ConcatOfPiece(pieces: seq<string>, p: string)
    ensures Concat(pieces + [p]) == Concat(pieces) + p
  {
    ConcatAppend(pieces, [p]);
    assert Concat([p]) == p + Concat([]);
  }

  /**
   * The `for (const line of lines)` loop over one chunk: forwards each
   * frame's content, appending it to the pieces already forwarded and to
   * `assistantText`, and stops at a `done` frame.
   */
  method ForwardLines(lines: seq<string>, parse: string -> Option<Frame>, forwarded: seq<string>, text: string)
    returns (enqueued: seq<string>, assistantText: string, done: bool)
    requires text == Concat(forwarded)
    ensures enqueued == forwarded + LinesStep(lines, parse).pieces
    ensures done == LinesStep(lines, parse).done
    ensures assistantText == Concat(enqueued)
  {
    enqueued, assistantText := forwarded, text;
    ghost var emitted: seq<string> := [];
    for j := 0 to |lines|
      invariant enqueued == forwarded + emitted
      invariant LinesStep(lines, parse) == After(emitted, LinesStep(lines[j..], parse))
      invariant assistantText == Concat(enqueued)
    {
      var data := parse(lines[j]);
      if data.Some? {
        var f := data.value;
        FrameStep(lines, parse, j, emitted, f);
        AppendAssociates(forwarded, emitted, Emitted(f));
        if f.content != [] {
          ConcatOfPiece(enqueued, f.content);
          assistantText := assistantText + f.content;
          enqueued := enqueued + [f.content];
        } else {
          assert emitted + Emitted(f) == emitted;
        }
        emitted := emitted + Emitted(f);
        if f.done {
          return enqueued, assistantText, true;
        }
      } else {
        LinesStepAt(lines, parse, j);
      }
    }
    assert lines[|lines|..] == [];
    done := false;
  }

  /**
   * The `start` callback of the response stream: reads the events, forwards
   * pieces and accumulates `assistantText`. The pieces forwarded and the exit
   * are those of `Run`; `assistantText` is exactly what was forwarded, given
   * that forwarding a piece never throws.
   */
  method Pump(events: seq<ReadEvent>, parse: string -> Option<Frame>)
    returns (enqueued: seq<string>, assistantText: string, exit: LoopExit, end: StreamEnd)
    ensures Outcome(enqueued, exit) == Run(events, parse)
    ensures assistantText == Concat(enqueued)
    ensures end == EndOf(exit)
  {
    enqueued, assistantText := [], "";
    var k := 0;
    while true
      invariant 0 <= k <= |events|
      invariant Run(events, parse) == Resume(enqueued, Run(events[k..], parse))
      invariant assistantText == Concat(enqueued)
      decreases |events| - k
    {
      if k == |events| {
        // the body is exhausted: `reader.read()` reports `done`
        RunAt(events, parse, k);
        return enqueued, assistantText, ReaderEnd, Closed;
      }
      match events[k]
      case ReaderDone =>
        RunAt(events, parse, k);
        return enqueued, assistantText, ReaderEnd, Closed;
      case ReadAbort =>
        RunAt(events, parse, k);
        return enqueued, assistantText, AbortExit, Closed;
      case ReadFailure =>
        RunAt(events, parse, k);
        return enqueued, assistantText, ErrorExit, Errored;
      case Chunk(text) =>
        ChunkStep(events, parse, k, enqueued, text);
        var done;
        enqueued, assistantText, done := ForwardLines(Lines(text), parse, enqueued, assistantText);
        if done {
          return enqueued, assistantText, DoneFrame, Closed;
        }
        k := k + 1;
    }
  }

  // ---------------------------------------------------------------------------
  // Properties

  /** Every forwarded piece is non-empty and is the content of a frame parsed from one of the lines. */
  lemma {:induction false} LinesStepForwardsFrames(lines: seq<string>, parse: string -> Option<Frame>)
    ensures forall p :: p in LinesStep(lines, parse).pieces ==>
              p != [] && exists l :: l in lines && parse(l).Some? && parse(l).value.content == p
  {
    if lines != [] {
      LinesStepForwardsFrames(lines[1..], parse);
      forall p | p in LinesStep(lines, parse).pieces
        ensures p != [] && exists l :: l in lines && parse(l).Some? && parse(l).value.content == p
      {
        if p !in LinesStep(lines[1..], parse).pieces {
          assert parse(lines[0]).Some? && parse(lines[0]).value.content == p;
        } else {
          var l :| l in lines[1..] && parse(l).Some? && parse(l).value.content == p;
          assert l in lines;
        }
      }
    }
  }

  /** Some line of some chunk among `events` parses to a frame with content `p`. */
  predicate FromSomeFrame(p: string, events: seq<ReadEvent>, parse: string -> Option<Frame>) {
    exists k, l :: 0 <= k < |events| && events[k].Chunk? && l in Lines(events[k].text)
                   && parse(l).Some? && parse(l).value.content == p
  }

  /** Nothing is invented: every piece the loop forwards is non-empty and is the content of a frame that arrived. */
  lemma RunForwardsFrames(events: seq<ReadEvent>, parse: string -> Option<Frame>)
    ensures forall p :: p in Run(events, parse).pieces ==> p != [] && FromSomeFrame(p, events, parse)
  {
    forall p | p in Run(events, parse).pieces
      ensures p != [] && FromSomeFrame(p, events, parse)
    {
      PieceFromFrame(p, events, parse);
    }
  }

  lemma {:induction false} PieceFromFrame(p: string, events: seq<ReadEvent>, parse: string -> Option<Frame>)
    requires p in Run(events, parse).pieces
    ensures p != [] && FromSomeFrame(p, events, parse)
  {
    var batch := LinesStep(Lines(events[0].text), parse);
    if p in batch.pieces {
      LinesStepForwardsFrames(Lines(events[0].text), parse);
      FirstFrame(p, events, parse);
    } else {
      assert p in Run(events[1..], parse).pieces;
      PieceFromFrame(p, events[1..], parse);
      LaterFrame(p, events, parse);
    }
  }

  lemma FirstFrame(p: string, events: seq<ReadEvent>, parse: string -> Option<Frame>)
    requires events != [] && events[0].Chunk?
    requires p != [] && exists l :: l in Lines(events[0].text) && parse(l).Some? && parse(l).value.content == p
    ensures FromSomeFrame(p, events, parse)
  {
    var l :| l in Lines(events[0].text) && parse(l).Some? && parse(l).value.content == p;
    assert 0 <= 0 < |events| && events[0].Chunk? && l in Lines(events[0].text);
  }

  lemma LaterFrame(p: string, events: seq<ReadEvent>, parse: string -> Option<Frame>)
    requires events != [] && FromSomeFrame(p, events[1..], parse)
    ensures FromSomeFrame(p, events, parse)
  {
    var k, l :| 0 <= k < |events[1..]| && events[1..][k].Chunk? && l in Lines(events[1..][k].text)
                && parse(l).Some? && parse(l).value.content == p;
    assert events[k + 1] == events[1..][k];
    assert 0 <= k + 1 < |events| && events[k + 1].Chunk? && l in Lines(events[k + 1].text);
  }

  /** The contents of all frames among `lines`, in order, `done` or not. */
  function FrameContents(lines: seq<string>, parse: string -> Option<Frame>): seq<string> {
    if lines == [] then []
    else (match parse(lines[0]) case None => [] case Some(f) => Emitted(f)) + FrameContents(lines[1..], parse)
  }

  /** No line among `lines` parses to a frame marked `done`. */
  predicate NoDoneFrame(lines: seq<string>, parse: string -> Option<Frame>) {
    forall i :: 0 <= i < |lines| ==> parse(lines[i]).None? || !parse(lines[i]).value.done
  }

  /** Without a `done` frame every frame's content is forwarded once, in arrival order. */
  lemma {:induction false} LinesStepWithoutDone(lines: seq<string>, parse: string -> Option<Frame>)
    requires NoDoneFrame(lines, parse)
    ensures LinesStep(lines, parse) == Batch(FrameContents(lines, parse), false)
  {
    if lines != [] {
      assert NoDoneFrame(lines[1..], parse) by {
        assert forall i :: 0 <= i < |lines| - 1 ==> lines[1..][i] == lines[i + 1];
      }
      LinesStepWithoutDone(lines[1..], parse);
    }
  }

  /** The first `done` frame forwards its own content, after all earlier contents, and ends the batch. */
  lemma LinesStepStopsAtDone(before: seq<string>, l: string, after: seq<string>, parse: string -> Option<Frame>)
    requires NoDoneFrame(before, parse) && parse(l).Some? && parse(l).value.done
    ensures LinesStep(before + [l] + after, parse) == Batch(FrameContents(before, parse) + Emitted(parse(l).value), true)
  {
    LinesStepWithoutDone(before, parse);
    assert before + [l] + after == before + ([l] + after);
    LinesStepAppend(before, [l] + after, parse);
    HeadTailOfAppend([l], after);
  }

  /**
   * Lines are handled one after another: the lines after a `done` frame are
   * ignored; otherwise the second run of lines continues where the first
   * left off.
   */
  lemma {:induction false} LinesStepAppend(a: seq<string>, b: seq<string>, parse: string -> Option<Frame>)
    ensures LinesStep(a + b, parse) ==
            if LinesStep(a, parse).done then LinesStep(a, parse) else After(LinesStep(a, parse).pieces, LinesStep(b, parse))
  {
    if a == [] {
      assert a + b == b;
    } else {
      HeadTailOfAppend(a, b);
      LinesStepAppend(a[1..], b, parse);
      match parse(a[0])
      case None =>
      case Some(f) =>
        if !f.done {
          AfterTwice(Emitted(f), LinesStep(a[1..], parse).pieces, LinesStep(b, parse));
        }
    }
  }

  /** Nothing after a `done` frame or a read error matters. */
  lemma {:induction false} RunStopsAtExit(a: seq<ReadEvent>, b: seq<ReadEvent>, parse: string -> Option<Frame>)
    requires Run(a, parse).exit != ReaderEnd
    ensures Run(a + b, parse) == Run(a, parse)
  {
    HeadTailOfAppend(a, b);
    if a[0].Chunk? {
      var batch := LinesStep(Lines(a[0].text), parse);
      if !batch.done {
        RunStopsAtExit(a[1..], b, parse);
      }
    }
  }

  /** The end of the body ends the loop: what follows it is never read, and running out of events is the same end. */
  lemma {:induction false} RunStopsAtReaderDone(a: seq<ReadEvent>, b: seq<ReadEvent>, parse: string -> Option<Frame>)
    ensures Run(a + [ReaderDone] + b, parse) == Run(a, parse)
  {
    if a == [] {
      assert a + [ReaderDone] + b == [ReaderDone] + b;
    } else {
      assert a + [ReaderDone] + b == a + ([ReaderDone] + b);
      HeadTailOfAppend(a, [ReaderDone] + b);
      if a[0].Chunk? {
        RunStopsAtReaderDone(a[1..], b, parse);
        assert a[1..] + [ReaderDone] + b == a[1..] + ([ReaderDone] + b);
      }
    }
  }

  /**
   * Chunks are handled independently: after chunks that end in no `done`
   * frame, the loop continues with the later events as if from the start,
   * the pieces forwarded so far coming first.
   */
  lemma {:induction false} RunAppend(a: seq<ReadEvent>, b: seq<ReadEvent>, parse: string -> Option<Frame>)
    requires forall k :: 0 <= k < |a| ==> a[k].Chunk?
    requires Run(a, parse).exit == ReaderEnd
    ensures Run(a + b, parse) == Resume(Run(a, parse).pieces, Run(b, parse))
  {
    if a == [] {
      assert a + b == b;
    } else {
      var e, rest := a[0], a[1..];
      assert e.Chunk?;
      HeadTailOfAppend(a, b);
      var batch := LinesStep(Lines(e.text), parse);
      RunOfLeadingChunk(a, parse);
      RunOfLeadingChunk(a + b, parse);
      assert !batch.done && Run(rest, parse).exit == ReaderEnd;
      assert forall k :: 0 <= k < |rest| ==> rest[k].Chunk? by {
        forall k | 0 <= k < |rest|
          ensures rest[k].Chunk?
        {
          assert rest[k] == a[k + 1];
        }
      }
      RunAppend(rest, b, parse);
      ResumeTwice(batch.pieces, Run(rest, parse).pieces, Run(b, parse));
    }
  }

  lemma RunOfLeadingChunk(events: seq<ReadEvent>, parse: string -> Option<Frame>)
    requires events != [] && events[0].Chunk?
    ensures var batch := LinesStep(Lines(events[0].text), parse);
            Run(events, parse) ==
              if batch.done then Outcome(batch.pieces, DoneFrame) else Resume(batch.pieces, Run(events[1..], parse))
  {
  }

  /** The loop over a chunk followed by more events. */
  lemma RunOfChunk(text: string, rest: seq<ReadEvent>, parse: string -> Option<Frame>)
    ensures var batch := LinesStep(Lines(text), parse);
            Run([Chunk(text)] + rest, parse) ==
              if batch.done then Outcome(batch.pieces, DoneFrame) else Resume(batch.pieces, Run(rest, parse))
  {
    HeadTailOfAppend([Chunk(text)], rest);
  }

  lemma {:induction false} NonBlankAppend(a: seq<string>, b: seq<string>)
    ensures NonBlank(a + b) == NonBlank(a) + NonBlank(b)
  {
    if a == [] {
      assert a + b == b;
    } else {
      HeadTailOfAppend(a, b);
      NonBlankAppend(a[1..], b);
      if Trim(a[0]) != [] {
        assert NonBlank(a + b) == [a[0]] + (NonBlank(a[1..]) + NonBlank(b));
        assert NonBlank(a) == [a[0]] + NonBlank(a[1..]);
        AppendAssociates([a[0]], NonBlank(a[1..]), NonBlank(b));
      } else {
        assert NonBlank(a + b) == NonBlank(a[1..]) + NonBlank(b);
      }
    }
  }

  /** Each line of a chunk is handled on its own: the lines on both sides of a line feed are those of the two parts. */
  lemma LinesAppend(a: string, b: string)
    ensures Lines(a + "\n" + b) == Lines(a) + Lines(b)
  {
    SplitLinesAppend(a, b);
    NonBlankAppend(SplitLines(a), SplitLines(b));
  }

  /** A line of a chunk is handled exactly when it is not blank. */
  lemma {:induction false} NonBlankMembership(ls: seq<string>, l: string)
    ensures l in NonBlank(ls) <==> l in ls && Trim(l) != []
  {
    if ls != [] {
      NonBlankMembership(ls[1..], l);
      assert l in ls <==> l == ls[0] || l in ls[1..];
    }
  }

  /** A chunk that is a single non-blank line yields exactly that line. */
  lemma LinesOfOneLine(s: string)
    requires '\n' !in s && Trim(s) != []
    ensures Lines(s) == [s]
  {
    SplitLinesWithoutNewline(s);
    NonBlankOfOne(s);
  }

  lemma NonBlankOfOne(l: string)
    requires Trim(l) != []
    ensures NonBlank([l]) == [l]
  {
    assert NonBlank([l][1..]) == [];
  }

  /** A single line forwards its frame's content, if it parses. */
  lemma LinesStepOfOne(l: string, parse: string -> Option<Frame>)
    ensures LinesStep([l], parse) == match parse(l)
      case None => Batch([], false)
      case Some(f) => Batch(Emitted(f), f.done)
  {
    assert [l][1..] == [];
  }

  /** The loop over a chunk that is one non-blank line, followed by more events. */
  lemma RunOfOneLineChunk(l: string, rest: seq<ReadEvent>, parse: string -> Option<Frame>)
    requires '\n' !in l && Trim(l) != []
    ensures Run([Chunk(l)] + rest, parse) == match parse(l)
      case None => Run(rest, parse)
      case Some(f) => if f.done then Outcome(Emitted(f), DoneFrame) else Resume(Emitted(f), Run(rest, parse))
  {
    LinesOfOneLine(l);
    LinesStepOfOne(l, parse);
    RunOfChunk(l, rest, parse);
    var batch := LinesStep(Lines(l), parse);
    assert batch == LinesStep([l], parse);
    match parse(l)
    case None =>
      assert batch.pieces == [] && !batch.done;
      ResumeNothing(Run(rest, parse));
    case Some(f) =>
      assert batch == Batch(Emitted(f), f.done);
  }

  lemma ResumeNothing(o: Outcome)
    ensures Resume([], o) == o
  {
    assert [] + o.pieces == o.pieces;
  }

  /** Two chunks, each a single line that does not parse, forward nothing: the loop goes on with what follows. */
  lemma UnparsableChunksForwardNothing(x: string, y: string, rest: seq<ReadEvent>, parse: string -> Option<Frame>)
    requires '\n' !in x && '\n' !in y && Trim(x) != [] && Trim(y) != []
    requires parse(x).None? && parse(y).None?
    ensures Run([Chunk(x)] + ([Chunk(y)] + rest), parse) == Run(rest, parse)
  {
    RunOfOneLineChunk(y, rest, parse);
    RunOfOneLineChunk(x, [Chunk(y)] + rest, parse);
  }

  /** A chunk that is a single line holding a frame forwards that frame's content. */
  lemma OneFrameChunkForwardsContent(l: string, parse: string -> Option<Frame>, f: Frame)
    requires '\n' !in l && Trim(l) != [] && parse(l) == Some(f)
    ensures Run([Chunk(l)], parse).pieces == Emitted(f)
  {
    assert [Chunk(l)] == [Chunk(l)] + [];
    RunOfOneLineChunk(l, [], parse);
  }

  /** Text that is not blank stays not blank when more text follows. */
  lemma NonBlankPrefix(x: string, y: string)
    requires Trim(x) != []
    ensures Trim(x + y) != []
  {
    assert !AllSpace(x);
    assert forall i :: 0 <= i < |x| ==> (x + y)[i] == x[i];
  }

  /**
   * Lines are not buffered across reads: a frame whose text arrives split
   * over two chunks, neither half of which parses, forwards nothing, although
   * the same text in a single chunk forwards its content.
   */
  lemma SplitFrameIsLost(x: string, y: string, parse: string -> Option<Frame>, f: Frame)
    requires '\n' !in x && '\n' !in y && Trim(x) != [] && Trim(y) != []
    requires parse(x).None? && parse(y).None?
    requires parse(x + y) == Some(f) && f.content != []
    ensures Run([Chunk(x)] + [Chunk(y)], parse).pieces == []
    ensures Run([Chunk(x + y)], parse).pieces == [f.content]
  {
    SplitChunksForwardNothing(x, y, parse);
    NonBlankPrefix(x, y);
    OneFrameChunkForwardsContent(x + y, parse, f);
  }

  lemma SplitChunksForwardNothing(x: string, y: string, parse: string -> Option<Frame>)
    requires '\n' !in x && '\n' !in y && Trim(x) != [] && Trim(y) != []
    requires parse(x).None? && parse(y).None?
    ensures Run([Chunk(x)] + [Chunk(y)], parse).pieces == []
  {
    RunOfOneLineChunk(x, [Chunk(y)], parse);
    UnparsableChunkForwardsNothing(y, parse);
  }

  lemma UnparsableChunkForwardsNothing(l: string, parse: string -> Option<Frame>)
    requires '\n' !in l && Trim(l) != [] && parse(l).None?
    ensures Run([Chunk(l)], parse).pieces == []
  {
    assert [Chunk(l)] == [Chunk(l)] + [];
    RunOfOneLineChunk(l, [], parse);
  }
}
