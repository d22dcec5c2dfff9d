/** What a job's loop (server/src/job.rs) does with what the job wrote: the hashed,
recorded and streamed output against the chunks that were read, and the flags of
the loop against what has happened in its run. */
module JobOutput {
  import opened JobLoop
  import opened Wrappers

  // ---- What the job wrote

  /** `e` reads a chunk of `stream`, at its turn. */
  predicate Reads(s: State, e: Event, stream: Stream) {
    e.Read? && e.stream == stream && Enabled(s, e)
  }

  /** Everything read from a stream in a run, in order. */
  function Produced(s: State, script: seq<Event>, stream: Stream): Data
    decreases |script|
  {
    if |script| == 0 then []
    else
      var before, e := script[..|script| - 1], script[|script| - 1];
      Produced(s, before, stream) + if Reads(Run(s, before), e, stream) then e.buf else []
  }

  /** The part of it that is kept under a limit: everything up to and including the
      chunk that goes over. */
  function Kept(s: State, script: seq<Event>, stream: Stream, max: nat): Data
    decreases |script|
  {
    if |script| == 0 then []
    else
      var before, e := script[..|script| - 1], script[|script| - 1];
      var kept := Kept(s, before, stream, max);
      kept + if Reads(Run(s, before), e, stream) && |kept| <= max then e.buf else []
  }

  lemma {:induction false} KeptIsPrefix(s: State, script: seq<Event>, stream: Stream, max: nat)
    ensures Kept(s, script, stream, max) <= Produced(s, script, stream)
    ensures |Kept(s, script, stream, max)| <= max ==> Kept(s, script, stream, max) == Produced(s, script, stream)
    decreases |script|
  {
    if |script| > 0 {
      KeptIsPrefix(s, script[..|script| - 1], stream, max);
    }
  }

  // ---- What the loop makes of it

  lemma {:induction false} StepHashesOut(s: State, e: Event)
    requires Recorded(s)
    ensures Step(s, e).out.hashed ==
            s.out.hashed + if Reads(s, e, Stdout) && (s.Streaming() || |s.out.hashed| <= s.max) then e.buf else []
  {
    assert s.out.hashed + [] == s.out.hashed;
  }

  lemma {:induction false} StepHashesErr(s: State, e: Event)
    requires Recorded(s)
    ensures Step(s, e).err.hashed ==
            s.err.hashed + if Reads(s, e, Stderr) && |s.err.hashed| <= s.max then e.buf else []
  {
    assert s.err.hashed + [] == s.err.hashed;
  }

  /** In every run, what is hashed of a streamed standard output is everything read
      from it, and what is hashed of a recorded stream is everything up to and
      including the chunk that takes it over the limit. */
  lemma {:induction false} HashedIsProduced(mode: Mode, max: nat, script: seq<Event>)
    ensures var init := Init(mode, max);
      var s := Run(init, script);
      && s.out.hashed == (if mode.StreamOutput? then Produced(init, script, Stdout) else Kept(init, script, Stdout, max))
      && s.err.hashed == Kept(init, script, Stderr, max)
    decreases |script|
  {
    if |script| > 0 {
      var before := script[..|script| - 1];
      HashedIsProduced(mode, max, before);
      RunRecords(mode, max, before);
      ModeStays(Init(mode, max), before);
      StepHashesOut(Run(Init(mode, max), before), script[|script| - 1]);
      StepHashesErr(Run(Init(mode, max), before), script[|script| - 1]);
    }
  }

  /** A recorded stream whose file met no error is on file exactly as the job wrote
      it, up to the chunk that goes over the limit; and the job fails for its limit
      exactly when it wrote more than that. */
  lemma {:induction false} RecordedIsProduced(mode: Mode, max: nat, script: seq<Event>)
    ensures var init := Init(mode, max);
      var s := Run(init, script);
      && (!s.err.faulted ==> s.err.file.data == Kept(init, script, Stderr, max))
      && (!mode.StreamOutput? && !s.out.faulted ==> s.out.file.data == Kept(init, script, Stdout, max))
      && (s.ctl.fatal.Some? <==>
            |Produced(init, script, Stderr)| > max || (!mode.StreamOutput? && |Produced(init, script, Stdout)| > max))
  {
    var init := Init(mode, max);
    RunRecords(mode, max, script);
    ModeStays(init, script);
    HashedIsProduced(mode, max, script);
    KeptIsPrefix(init, script, Stdout, max);
    KeptIsPrefix(init, script, Stderr, max);
  }

  /** The consumer of a stream has been sent a prefix of what the job wrote, and a
      client that received messages in order holds all of it exactly when it counted
      as many bytes as the server reports. */
  lemma {:induction false} ClientHoldsProduced(max: nat, script: seq<Event>, received: seq<Data>)
    requires received <= Run(Init(StreamOutput, max), script).pipe.sent
    ensures var produced := Produced(Init(StreamOutput, max), script, Stdout);
      && Flat(received) <= produced
      && |Run(Init(StreamOutput, max), script).out.hashed| == |produced|
      && (|Flat(received)| == |produced| <==> Flat(received) == produced)
  {
    HashedIsProduced(StreamOutput, max, script);
    SentIsPrefix(StreamOutput, max, script);
    FlatPrefix(received, Run(Init(StreamOutput, max), script).pipe.sent);
  }

  /** A stream that finishes with its consumer still there delivers everything the
      job wrote. */
  lemma {:induction false} FinishedDeliversProduced(max: nat, before: seq<Event>, after: seq<Event>)
    requires var s := Run(Init(StreamOutput, max), before);
             s.Finished() && !s.ctl.exited && !s.pipe.consumer.Gone?
    requires forall i :: 0 <= i < |after| ==> Delivering(after[i])
    ensures var produced := Produced(Init(StreamOutput, max), before, Stdout);
      var t := Run(Run(Init(StreamOutput, max), before), after);
      Flat(Line(t.pipe)) == produced && (t.pipe.consumer.Gone? ==> Flat(t.pipe.sent) == produced)
  {
    HashedIsProduced(StreamOutput, max, before);
    FinishedStreamIsWhole(StreamOutput, max, before, after);
  }

  /** Leaving the loop with a chunk in hand, and room for it, still delivers it. */
  lemma {:induction false} FlushOffersTheLast(p: Pipe, hashed: Data)
    requires Carries(p, hashed) && !p.consumer.Gone? && !p.flushed && (p.pending.Some? ==> Room(p))
    ensures Flat(Line(FlushPipe(p))) == hashed && FlushPipe(p).pending.None?
  {
    if p.pending.Some? {
      PushCarries(p, hashed);
    } else {
      assert Flat(Line(p)) + [] == Flat(Line(p));
    }
  }

  // ---- The flags

  /** What can show in a run. */
  datatype Sign =
    | Death | Notice | Attached | OutEnd | ErrEnd | Failure | Leaving | Flushing | Returning | Stopping

  predicate Shows(s: State, e: Event, sign: Sign) {
    && Enabled(s, e)
    && match sign
       case Death => e.Died?
       case Notice => e.StopSeen?
       case Attached => e.Attach? && e.readWrite
       case OutEnd => e.StreamEnd? && e.stream.Stdout?
       case ErrEnd => e.StreamEnd? && e.stream.Stderr?
       case Failure => e.ReadFailed?
       case Leaving => e.Expired? || e.NeverAttached? || e.Finish?
       case Flushing => e.Flush?
       case Returning => e.Return?
       case Stopping =>
         || e.Cancelled? || e.NeverAttached? || (e.Expired? && s.ctl.eof) || (e.Send? && !e.ok)
         || (e.Replay? && e.outcome.PlayFailed? && !e.outcome.restored)
         || (e.Read? && !(e.stream.Stdout? && s.Streaming()) && Stops(if e.stream.Stdout? then s.out else s.err, e, s.max))
  }

  /** A recorded chunk whose write fails, or that goes over the limit. */
  predicate Stops(r: Recorder, e: Event, max: nat)
    requires e.Read?
  {
    r.rec && (e.write.WriteFailed? || |r.hashed| + |e.buf| > max)
  }

  predicate Shown(s: State, script: seq<Event>, sign: Sign)
    decreases |script|
  {
    |script| > 0 &&
    (Shown(s, script[..|script| - 1], sign) || Shows(Run(s, script[..|script| - 1]), script[|script| - 1], sign))
  }

  function Kills(s: State, script: seq<Event>): nat
    decreases |script|
  {
    if |script| == 0 then 0
    else
      var before, e := script[..|script| - 1], script[|script| - 1];
      Kills(s, before) + if e.KillTimeout? && Enabled(Run(s, before), e) then 1 else 0
  }

  lemma {:induction false} StepDies(s: State, e: Event)
    ensures Step(s, e).ctl.dead <==> s.ctl.dead || Shows(s, e, Death)
  {
  }

  lemma {:induction false} StepKills(s: State, e: Event)
    ensures Step(s, e).ctl.killed <==> s.ctl.killed || Shows(s, e, Notice)
    ensures Step(s, e).ctl.kills == s.ctl.kills + if e.KillTimeout? && Enabled(s, e) then 1 else 0
  {
  }

  lemma {:induction false} ReadStops(s: State, stream: Stream, buf: Data, write: WriteOutcome)
    ensures var e := Read(stream, buf, write);
      OnRead(s, stream, buf, write).ctl.stopped <==>
      s.ctl.stopped || (!(stream.Stdout? && s.Streaming()) && Stops(if stream.Stdout? then s.out else s.err, e, s.max))
  {
  }

  lemma {:induction false} StepStops(s: State, e: Event)
    ensures Step(s, e).ctl.stopped <==> s.ctl.stopped || Shows(s, e, Stopping)
  {
    if e.Read? {
      ReadStops(s, e.stream, e.buf, e.write);
    }
  }

  lemma {:induction false} StepEnds(s: State, e: Event)
    ensures var t := Step(s, e);
      && (t.out.eof <==> s.out.eof || Shows(s, e, OutEnd)) && (t.err.eof <==> s.err.eof || Shows(s, e, ErrEnd))
      && (t.ctl.eof <==> s.ctl.eof || (s.Streaming() && Over(s, e)))
      && (t.ctl.exited <==> s.ctl.exited || Shows(s, e, Leaving) || (!s.Streaming() && Over(s, e)))
  {
  }

  /** `e` ends the last stream, or fails to read. */
  predicate Over(s: State, e: Event) {
    || Shows(s, e, Failure)
    || ((Shows(s, e, OutEnd) || Shows(s, e, ErrEnd)) && (s.out.eof || Shows(s, e, OutEnd)) && (s.err.eof || Shows(s, e, ErrEnd)))
  }

  lemma {:induction false} StepLine(s: State, e: Event)
    requires Conserved(s)
    ensures var t := Step(s, e);
      && (t.pipe.attached <==> s.pipe.attached || Shows(s, e, Attached))
      && (t.pipe.flushed <==> s.pipe.flushed || Shows(s, e, Flushing))
      && (t.pipe.returned <==> s.pipe.returned || Shows(s, e, Returning))
  {
  }

  /** The output has ended: reading failed, or every stream has. */
  predicate Ended(init: State, script: seq<Event>) {
    || Shown(init, script, Failure)
    || (Shown(init, script, OutEnd) && (init.mode.Interactive? || Shown(init, script, ErrEnd)))
  }

  /** In every run the flags of the loop say exactly what has happened: the job died,
      its stop was noticed and followed by so many kills, it was told to stop, a
      consumer attached, its output ended, the loop was left. */
  lemma {:induction false} FlagsTellTheRun(mode: Mode, max: nat, script: seq<Event>)
    ensures var init := Init(mode, max);
      var s := Run(init, script);
      && (s.ctl.dead <==> Shown(init, script, Death))
      && (s.ctl.killed <==> Shown(init, script, Notice))
      && s.ctl.kills == Kills(init, script) <= KILL_ATTEMPTS
      && (s.ctl.stopped <==> Shown(init, script, Stopping))
      && (s.pipe.attached <==> Shown(init, script, Attached))
      && (s.pipe.flushed <==> Shown(init, script, Flushing))
      && (s.pipe.returned <==> Shown(init, script, Returning))
    decreases |script|
  {
    if |script| > 0 {
      var before := script[..|script| - 1];
      FlagsTellTheRun(mode, max, before);
      RunConserves(mode, max, before);
      RunRecords(mode, max, script);
      var s, e := Run(Init(mode, max), before), script[|script| - 1];
      StepDies(s, e);
      StepKills(s, e);
      StepStops(s, e);
      StepLine(s, e);
    }
  }

  lemma {:induction false} EndsTellTheRun(mode: Mode, max: nat, script: seq<Event>)
    ensures var init := Init(mode, max);
      var s := Run(init, script);
      && (s.out.eof <==> Shown(init, script, OutEnd))
      && (s.err.eof <==> mode.Interactive? || Shown(init, script, ErrEnd))
      && (s.ctl.eof <==> mode.StreamOutput? && Ended(init, script))
      && (s.ctl.exited <==> Shown(init, script, Leaving) || (!mode.StreamOutput? && Ended(init, script)))
    decreases |script|
  {
    if |script| > 0 {
      var before := script[..|script| - 1];
      EndsTellTheRun(mode, max, before);
      ModeStays(Init(mode, max), before);
      StepEnds(Run(Init(mode, max), before), script[|script| - 1]);
    }
  }
}
