/** One analysis and any number of readers of its session, in any interleaving (prompt_sessions.go). A
    step is one critical section of the session, or one choice of a reader's select. */
module PromptReaders {
  import opened Outcomes
  import opened PromptSessions

  datatype Reader =
    | Idle
    | Looking(limit: nat)
    | Parked(limit: nat, channel: nat)
    | Got(response: Response)
    | GaveUp

  datatype Step =
    | Chunk(text: string)
    | Finish(err: Option<string>)
    | Call(i: nat, maxChunks: int)
    | Look(i: nat)
    | Wake(i: nat)
    | GiveUp(i: nat)

  /** log is what all readers together were given, in the order of their reads. */
  datatype State = State(queue: Queue, readers: seq<Reader>, appended: seq<string>, log: seq<Response>)

  function Start(n: nat): State {
    State(Fresh(), seq(n, _ => Idle), [], [])
  }

  /** A step that is not possible changes nothing. The analysis sends no chunk after it has finished. A
      parked reader goes on when its channel is closed, and may give up at any time because its context
      ended or the store stopped. */
  function Next(st: State, step: Step): (next: State)
    ensures |next.readers| == |st.readers|
  {
    match step
    case Chunk(text) =>
      if st.queue.done || text == "" then st
      else st.(queue := Extended(st.queue, text), appended := st.appended + [text])
    case Finish(err) =>
      if st.queue.done then st else st.(queue := Finished(st.queue, err))
    case Call(i, maxChunks) =>
      if i < |st.readers| && !st.readers[i].Looking? && !st.readers[i].Parked? then
        st.(readers := st.readers[i := Looking(if maxChunks <= 0 then DEFAULT_READ_CHUNK_LIMIT else maxChunks)])
      else st
    case Look(i) =>
      if i < |st.readers| && st.readers[i].Looking? then
        if Blocks(st.queue) then
          st.(readers := st.readers[i := Parked(st.readers[i].limit, st.queue.notify)])
        else
          var (r, rest) := Taken(st.queue, st.readers[i].limit);
          st.(queue := rest, readers := st.readers[i := Got(r)], log := st.log + [r])
      else st
    case Wake(i) =>
      if i < |st.readers| && st.readers[i].Parked? && st.readers[i].channel < st.queue.notify then
        st.(readers := st.readers[i := Looking(st.readers[i].limit)])
      else st
    case GiveUp(i) =>
      if i < |st.readers| && st.readers[i].Parked? then st.(readers := st.readers[i := GaveUp]) else st
  }

  function Execute(st: State, steps: seq<Step>): (next: State)
    ensures |next.readers| == |st.readers|
  {
    if steps == [] then st else Next(Execute(st, steps[..|steps| - 1]), steps[|steps| - 1])
  }

  /** A reader is parked on an open channel only while there is nothing to read and more to come; a
      response without chunks is the last, and the last leaves nothing unread. */
  predicate ReaderOk(st: State, r: Reader) {
    match r
    case Looking(limit) => limit > 0
    case Parked(limit, channel) =>
      limit > 0 && channel <= st.queue.notify && (channel == st.queue.notify ==> Blocks(st.queue))
    case Got(response) =>
      && (|response.chunks| == 0 ==> response.done)
      && (response.errorText.Some? ==> response.done)
      && (response.done ==> st.queue.done && |st.queue.chunks| == 0 && response.errorText == st.queue.errorText)
    case _ => true
  }

  ghost predicate Inv(st: State) {
    && Conserved(st.log, st.queue.chunks, st.appended)
    && NoneEmpty(st.appended)
    && (st.queue.errorText.Some? ==> st.queue.done)
    && forall i :: 0 <= i < |st.readers| ==> ReaderOk(st, st.readers[i])
  }

  lemma ChunkKeepsInv(st: State, text: string)
    requires Inv(st)
    ensures Inv(Next(st, Chunk(text)))
  {
    if !st.queue.done && text != "" {
      assert Delivered(st.log) + (st.queue.chunks + [text]) == (Delivered(st.log) + st.queue.chunks) + [text];
    }
  }

  lemma LookKeepsInv(st: State, i: nat)
    requires Inv(st) && i < |st.readers| && st.readers[i].Looking?
    ensures Inv(Next(st, Look(i)))
  {
    assert ReaderOk(st, st.readers[i]);
    if !Blocks(st.queue) {
      ResponseKeepsInv(st, i, st.readers[i].limit);
    }
  }

  lemma ResponseKeepsInv(st: State, i: nat, limit: nat)
    requires Inv(st) && i < |st.readers| && limit > 0 && !Blocks(st.queue)
    ensures var (r, rest) := Taken(st.queue, limit);
            Inv(st.(queue := rest, readers := st.readers[i := Got(r)], log := st.log + [r]))
  {
    var (r, rest) := Taken(st.queue, limit);
    TakenKeepsChunks(st.log, st.queue, limit, st.appended);
    var next := st.(queue := rest, readers := st.readers[i := Got(r)], log := st.log + [r]);
    assert |r.chunks| == 0 ==> r.done;
    forall j | 0 <= j < |next.readers| && j != i ensures ReaderOk(next, next.readers[j]) {
      assert ReaderOk(st, st.readers[j]);
    }
  }

  lemma NextKeepsInv(st: State, step: Step)
    requires Inv(st)
    ensures Inv(Next(st, step))
  {
    match step {
      case Chunk(text) => ChunkKeepsInv(st, text);
      case Look(i) =>
        if i < |st.readers| && st.readers[i].Looking? {
          LookKeepsInv(st, i);
        }
      case _ =>
    }
  }

  /** Over every run with any number of readers: nothing lost, nothing twice, in order, and no reader
      asleep over something to read. */
  lemma {:induction false} EveryRunKeepsInv(n: nat, steps: seq<Step>)
    ensures Inv(Execute(Start(n), steps)) && |Execute(Start(n), steps).readers| == n
  {
    if steps == [] {
      assert Delivered([]) + [] == [];
    } else {
      EveryRunKeepsInv(n, steps[..|steps| - 1]);
      NextKeepsInv(Execute(Start(n), steps[..|steps| - 1]), steps[|steps| - 1]);
    }
  }

  /** The responses of all readers, put together in the order of their reads, are the first chunks of what
      was sent, and all of it once any reader has been told that it is done. */
  lemma {:induction false} ReadersSeeWhatWasSent(n: nat, steps: seq<Step>)
    ensures var st := Execute(Start(n), steps);
            && Delivered(st.log) + st.queue.chunks == st.appended
            && forall i :: 0 <= i < n && st.readers[i].Got? ==>
                 var r := st.readers[i].response;
                 && (r.done ==> st.queue.done && Delivered(st.log) == st.appended)
                 && (r.chunks == [] ==> r.done)
                 && (r.errorText.Some? ==> r.done)
  {
    EveryRunKeepsInv(n, steps);
    var st := Execute(Start(n), steps);
    if |st.queue.chunks| == 0 {
      assert Delivered(st.log) + [] == Delivered(st.log);
    }
    forall i | 0 <= i < n && st.readers[i].Got? ensures ReaderOk(st, st.readers[i]) {
    }
  }

  /** No lost wakeup: a reader that cannot go on has nothing to read. */
  lemma {:induction false} AsleepMeansNothingToRead(n: nat, steps: seq<Step>, i: nat)
    requires i < n
    ensures var st := Execute(Start(n), steps);
            st.readers[i].Parked? && Next(st, Wake(i)) == st ==> Blocks(st.queue)
  {
    EveryRunKeepsInv(n, steps);
    var st := Execute(Start(n), steps);
    if st.readers[i].Parked? {
      assert ReaderOk(st, st.readers[i]);
      if st.readers[i].channel < st.queue.notify {
        assert Next(st, Wake(i)).readers[i].Looking?;
      }
    }
  }

  // A waiting reader returns.

  predicate StepOf(step: Step, i: nat) {
    (step.Call? || step.Look? || step.Wake? || step.GiveUp?) && step.i == i
  }

  /** Steps of the analysis and of other readers. */
  ghost predicate OfOthers(steps: seq<Step>, i: nat) {
    forall k :: 0 <= k < |steps| ==> !StepOf(steps[k], i)
  }

  lemma OthersStep(st: State, step: Step, i: nat)
    requires i < |st.readers| && !StepOf(step, i)
    ensures Next(st, step).readers[i] == st.readers[i] && Next(st, step).queue.notify >= st.queue.notify
    ensures st.queue.done ==> Next(st, step).queue.done
  {
  }

  lemma {:induction false} OthersLeaveReader(st: State, steps: seq<Step>, i: nat)
    requires i < |st.readers| && OfOthers(steps, i)
    ensures var next := Execute(st, steps);
            && next.readers[i] == st.readers[i] && next.queue.notify >= st.queue.notify
            && (st.queue.done ==> next.queue.done)
  {
    if steps != [] {
      OthersLeaveReader(st, steps[..|steps| - 1], i);
      OthersStep(Execute(st, steps[..|steps| - 1]), steps[|steps| - 1], i);
    }
  }

  /** Reader i waits: it is parked, or about to look. */
  predicate Waits(st: State, i: nat) {
    i < |st.readers| && (st.readers[i].Parked? || st.readers[i].Looking?)
  }

  /** The run goes on with steps of others, a wakeup of reader i, again steps of others, and its look. */
  function WakeAndLook(st: State, i: nat, first: seq<Step>, second: seq<Step>): State {
    Execute(Next(Execute(st, first), Wake(i)), second)
  }

  lemma WakesUp(st: State, i: nat, first: seq<Step>, second: seq<Step>)
    requires Inv(st) && Waits(st, i) && !Blocks(st.queue) && OfOthers(first, i) && OfOthers(second, i)
    ensures var next := WakeAndLook(st, i, first, second);
            && |next.readers| == |st.readers| && next.readers[i].Looking?
            && (st.queue.done ==> next.queue.done)
  {
    assert ReaderOk(st, st.readers[i]);
    OthersLeaveReader(st, first, i);
    OthersLeaveReader(Next(Execute(st, first), Wake(i)), second, i);
  }

  /** Once there has been something to read while a reader waited, it takes a wakeup and a look of its own,
      whatever the analysis and the other readers do before and in between: it returns exactly when there is
      something to read at its look, and waits again on the open channel when others were faster. */
  lemma {:induction false} WaitingReaderReturns(n: nat, steps: seq<Step>, i: nat, first: seq<Step>, second: seq<Step>)
    requires i < n && OfOthers(first, i) && OfOthers(second, i)
    requires var st := Execute(Start(n), steps); Waits(st, i) && !Blocks(st.queue)
    ensures var ready := WakeAndLook(Execute(Start(n), steps), i, first, second);
            var last := Next(ready, Look(i));
            && |last.readers| == n && (last.readers[i].Got? <==> !Blocks(ready.queue))
            && (!last.readers[i].Got? ==> last.readers[i].Parked? && last.readers[i].channel == last.queue.notify)
  {
    EveryRunKeepsInv(n, steps);
    WakesUp(Execute(Start(n), steps), i, first, second);
  }

  /** After the end of the analysis nobody can be faster: the reader returns. */
  lemma {:induction false} AfterTheEndReaderReturns(n: nat, steps: seq<Step>, i: nat, first: seq<Step>,
                                                    second: seq<Step>)
    requires i < n && OfOthers(first, i) && OfOthers(second, i)
    requires var st := Execute(Start(n), steps); Waits(st, i) && st.queue.done
    ensures var ready := WakeAndLook(Execute(Start(n), steps), i, first, second);
            var last := Next(ready, Look(i));
            |last.readers| == n && last.readers[i].Got?
  {
    EveryRunKeepsInv(n, steps);
    WakesUp(Execute(Start(n), steps), i, first, second);
  }

  lemma ChunkIsServed(st: State, i: nat, text: string)
    requires i < |st.readers| && st.readers[i].Parked? && st.readers[i].channel == st.queue.notify
    requires Blocks(st.queue) && st.queue.errorText == None && st.readers[i].limit > 0 && text != ""
    ensures Next(Next(Next(st, Chunk(text)), Wake(i)), Look(i)).readers[i] == Got(Response([text], false, None))
  {
    Served(st, Next(st, Chunk(text)), i, [text], false, None);
  }

  lemma EndIsServed(st: State, i: nat, err: Option<string>)
    requires i < |st.readers| && st.readers[i].Parked? && st.readers[i].channel == st.queue.notify
    requires Blocks(st.queue) && st.queue.errorText == None && st.readers[i].limit > 0
    ensures Next(Next(Next(st, Finish(err)), Wake(i)), Look(i)).readers[i] == Got(Response([], true, err))
  {
    Served(st, Next(st, Finish(err)), i, [], true, err);
  }

  lemma StaysParked(st: State, i: nat)
    requires i < |st.readers| && st.readers[i].Parked? && st.readers[i].channel == st.queue.notify
    ensures Next(st, Wake(i)) == st && Next(st, GiveUp(i)).readers[i] == GaveUp
  {
  }

  lemma ParkedOnNothing(st: State, i: nat)
    requires Inv(st) && i < |st.readers| && st.readers[i].Parked? && st.readers[i].channel == st.queue.notify
    ensures Blocks(st.queue) && st.queue.errorText == None && st.readers[i].limit > 0
  {
    assert ReaderOk(st, st.readers[i]);
  }

  /** A reader parked on the open channel gets the next chunk after its wakeup, or the end and its error; until
      then a wakeup has no effect; and it may leave at any time. */
  lemma {:induction false} ParkedReaderIsServed(n: nat, steps: seq<Step>, st: State, i: nat, text: string,
                                                err: Option<string>)
    requires st == Execute(Start(n), steps) && text != ""
    requires i < |st.readers| && st.readers[i].Parked? && st.readers[i].channel == st.queue.notify
    ensures Next(st, Wake(i)) == st && Next(st, GiveUp(i)).readers[i] == GaveUp
    ensures Next(Next(Next(st, Chunk(text)), Wake(i)), Look(i)).readers[i] == Got(Response([text], false, None))
    ensures Next(Next(Next(st, Finish(err)), Wake(i)), Look(i)).readers[i] == Got(Response([], true, err))
  {
    EveryRunKeepsInv(n, steps);
    ParkedOnNothing(st, i);
    StaysParked(st, i);
    ChunkIsServed(st, i, text);
    EndIsServed(st, i, err);
  }

  lemma Wakens(st: State, i: nat)
    requires i < |st.readers| && st.readers[i].Parked? && st.readers[i].channel < st.queue.notify
    ensures Next(st, Wake(i)).queue == st.queue && Next(st, Wake(i)).readers[i] == Looking(st.readers[i].limit)
  {
  }

  /** The queue changes, the reader of the old channel wakes up and looks. */
  lemma Served(was: State, st: State, i: nat, chunks: seq<string>, done: bool, errorText: Option<string>)
    requires i < |was.readers| == |st.readers| && st.readers[i] == was.readers[i] && was.readers[i].Parked?
    requires was.readers[i].channel == was.queue.notify < st.queue.notify && was.readers[i].limit > 0
    requires st.queue.chunks == chunks && st.queue.done == done && st.queue.errorText == errorText
    requires |chunks| <= 1 && (done <==> chunks == []) && (errorText.Some? ==> done)
    ensures Next(Next(st, Wake(i)), Look(i)).readers[i] == Got(Response(chunks, done, errorText))
  {
    Wakens(st, i);
    LookTakes(Next(st, Wake(i)), i);
  }

  /** A look at a queue with something to read takes the first chunks, at most limit. */
  lemma LookTakes(st: State, i: nat)
    requires i < |st.readers| && st.readers[i].Looking? && !Blocks(st.queue)
    ensures var next, q := Next(st, Look(i)), st.queue;
            && next.readers[i].Got?
            && var r := next.readers[i].response;
               && r.chunks + next.queue.chunks == q.chunks && |r.chunks| <= st.readers[i].limit
               && (|r.chunks| < st.readers[i].limit ==> next.queue.chunks == [])
               && (r.done <==> q.done && next.queue.chunks == [])
               && r.errorText == (if r.done then q.errorText else None)
               && next.log == st.log + [r]
  {
    TakenIsPrefix(st.queue, st.readers[i].limit);
  }

  /** A call that finds something returns the first chunks, at most as many as asked for, or 16. */
  lemma {:induction false} CallReturnsWhatIsThere(n: nat, steps: seq<Step>, i: nat, maxChunks: int)
    requires var st := Execute(Start(n), steps);
             && i < n && |st.readers| == n && !st.readers[i].Looking? && !st.readers[i].Parked?
             && !Blocks(st.queue)
    ensures var st := Execute(Start(n), steps);
            var next := Next(Next(st, Call(i, maxChunks)), Look(i));
            && next.readers[i].Got?
            && var chunks, limit := next.readers[i].response.chunks, if maxChunks <= 0 then 16 else maxChunks;
               && chunks + next.queue.chunks == st.queue.chunks && |chunks| <= limit
               && (|chunks| < limit ==> next.queue.chunks == [])
  {
    LookTakes(Next(Execute(Start(n), steps), Call(i, maxChunks)), i);
  }

  /** Once the analysis is over, every response takes at least one of the chunks left until none is left,
      so at most that many more responses are not marked done. */
  lemma {:induction false} ReadsRunOut(st: State, steps: seq<Step>)
    requires Inv(st) && st.queue.done
    ensures var next := Execute(st, steps);
            && next.queue.done && next.appended == st.appended && |next.log| >= |st.log|
            && |next.queue.chunks| <= |st.queue.chunks|
            && (next.queue.chunks != [] ==> |next.log| - |st.log| <= |st.queue.chunks| - |next.queue.chunks|)
            && Inv(next)
  {
    if steps != [] {
      ReadsRunOut(st, steps[..|steps| - 1]);
      var was, step := Execute(st, steps[..|steps| - 1]), steps[|steps| - 1];
      NextKeepsInv(was, step);
      if step.Look? && step.i < |was.readers| {
        assert ReaderOk(was, was.readers[step.i]);
      }
    }
  }
}
