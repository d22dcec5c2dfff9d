/** The select loop that runs one job (server/src/job.rs), with the reads under
it (server/src/io.rs) and the routine that streams output to the one consumer of a
streaming job.

An event is one ready branch of the select, a step of the streaming routine, or a
step of the world outside. Events that the guards exclude do nothing, so every
list of events is a run. Time is left to the events. */
module JobLoop {
  import opened Bytes
  import opened Wrappers

  type Data = seq<Byte>

  datatype Mode = Batch | Interactive | StreamOutput

  datatype Stream = Stdout | Stderr

  const BATCH_OUTPUT_BUFFER_SIZE := 0x10000
  const INTERACTIVE_OUTPUT_BUFFER_SIZE := 0x2000
  const INTERACTIVE_JOB_BUFFER_SIZE := 0x10000
  const OUTPUT_CHANNEL_CAPACITY := 1
  const KILL_ATTEMPTS := 3

  function BufferSize(mode: Mode): nat {
    if mode.Interactive? then INTERACTIVE_OUTPUT_BUFFER_SIZE else BATCH_OUTPUT_BUFFER_SIZE
  }

  // ---- Output files

  datatype File = File(data: Data, pos: nat)

  function Zeros(n: nat): (z: Data)
    ensures |z| == n
  {
    seq(n, _ => 0)
  }

  /** Write at the position, past the end if that is where it is. */
  function WriteAt(f: File, buf: Data): File {
    if |buf| == 0 then f
    else
      var base := if f.pos <= |f.data| then f.data else f.data + Zeros(f.pos - |f.data|);
      var end := f.pos + |buf|;
      File(base[..f.pos] + buf + (if end <= |base| then base[end..] else []), end)
  }

  /** How a write ends: whole, or broken off after `n` bytes. */
  datatype WriteOutcome = WriteOk | WriteFailed(n: nat)

  /** How a playback ends: read in full, or failed with the position anywhere,
      and then put back at the end of the file or not. */
  datatype Playback = Played | PlayFailed(pos: nat, restored: bool)

  /** Reading the last bytes of the file leaves the position at its end. */
  function PlayBack(f: File, size: nat): (File, Data) {
    var n := if |f.data| < size then |f.data| else size;
    if n == 0 then (f, []) else (f.(pos := |f.data| - n + n), f.data[|f.data| - n..])
  }

  // ---- One output stream

  /** What was hashed, the file it is recorded in, whether it is still being
      recorded, whether it is at its end, and whether the file has met an error
      it could not undo. */
  datatype Recorder = Recorder(hashed: Data, file: File, rec: bool, eof: bool, faulted: bool)

  function Blank(eof: bool): Recorder {
    Recorder([], File([], 0), true, eof, false)
  }

  function Take(r: Recorder, buf: Data, write: WriteOutcome, max: nat): Recorder {
    var hashed := r.hashed + buf;
    var written := match write
      case WriteOk => WriteAt(r.file, buf)
      case WriteFailed(n) => WriteAt(r.file, buf[..if n < |buf| then n else |buf|]);
    r.(hashed := hashed, file := written,
       faulted := r.faulted || write.WriteFailed?,
       rec := r.rec && |hashed| <= max)
  }

  // ---- The loop

  /** The streaming routine: waiting for its socket, serving it, or gone. */
  datatype Consumer = Waiting | Serving | Gone

  /** The line from the loop to the consumer. The loop holds one pending chunk
      and reserves room in the channel for it; the streaming routine carries one
      that it took and has not sent yet; `flushed` and `returned` say how far the
      loop's end of the line is shut. */
  datatype Pipe = Pipe(
    pending: Option<Data>, channel: seq<Data>, carried: Option<Data>, sent: seq<Data>, consumer: Consumer,
    attached: bool, flushed: bool, returned: bool)

  datatype Control = Control(
    eof: bool, dead: bool, killed: bool, kills: nat, stopped: bool,
    fatal: Option<Stream>, exited: bool)

  datatype State = State(mode: Mode, max: nat, out: Recorder, err: Recorder, pipe: Pipe, ctl: Control)
  {
    predicate Streaming() { mode.StreamOutput? }

    /** Output has ended, somebody attached, and the loop holds nothing back. */
    predicate Finished() { ctl.eof && pipe.attached && pipe.pending.None? }

    predicate Looping() { !ctl.exited && !Finished() }

    predicate Reading() { Looping() && pipe.pending.None? && !ctl.eof }
  }

  datatype Event =
    | Read(stream: Stream, buf: Data, write: WriteOutcome)
    | StreamEnd(stream: Stream)
    | ReadFailed
    | Permit
    | PermitClosed
    | Attach(readWrite: bool)
    | Replay(outcome: Playback)
    | Cancelled
    | StopSeen
    | KillTimeout
    | Died
    | Expired            // the drain limit, the drain timeout, or the linger
    | NeverAttached
    | Finish
    | Flush
    | Return
    | TakeSocket
    | Receive
    | Send(ok: bool, landed: bool)
    | Abandon
    | Close

  function Init(mode: Mode, max: nat): State {
    State(mode, max, Blank(false), Blank(mode.Interactive?),
          Pipe(None, [], None, [], Waiting, false, false, false),
          Control(false, false, false, 0, false, None, false))
  }

  predicate Room(p: Pipe) {
    !p.consumer.Gone? && |p.channel| < OUTPUT_CHANNEL_CAPACITY
  }

  predicate Enabled(s: State, e: Event) {
    match e
    case Read(stream, buf, _) =>
      s.Reading() && 0 < |buf| <= BufferSize(s.mode) && !(if stream.Stdout? then s.out.eof else s.err.eof)
    case StreamEnd(stream) => s.Reading() && !(if stream.Stdout? then s.out.eof else s.err.eof)
    case ReadFailed => s.Reading()
    case Permit => s.Looping() && s.pipe.pending.Some? && Room(s.pipe)
    case PermitClosed => s.Looping() && s.pipe.pending.Some? && s.pipe.consumer.Gone?
    case Attach(_) => s.Looping() && s.Streaming()
    case Replay(_) => s.Looping() && !s.Streaming() && !s.ctl.dead
    case Cancelled => true
    case StopSeen => s.Looping() && s.ctl.stopped && !s.ctl.killed
    case KillTimeout => s.Looping() && s.ctl.killed && s.ctl.kills < KILL_ATTEMPTS
    case Died => s.Looping() && !s.ctl.dead
    case Expired => s.Looping() && (s.ctl.eof || s.ctl.dead)
    case NeverAttached => s.Looping() && s.Streaming() && !s.pipe.attached && !s.ctl.eof
    case Finish => !s.ctl.exited && s.Finished()
    case Flush => s.ctl.exited && !s.pipe.flushed
    case Return => s.pipe.flushed && !s.pipe.returned
    case TakeSocket => s.Streaming() && s.pipe.attached && s.pipe.consumer.Waiting?
    case Receive => s.pipe.consumer.Serving? && s.pipe.carried.None? && |s.pipe.channel| > 0
    case Send(_, _) => s.pipe.consumer.Serving? && s.pipe.carried.Some?
    case Abandon => s.Streaming() && s.pipe.consumer.Waiting? && !s.pipe.attached && s.pipe.returned
    case Close =>
      s.pipe.consumer.Serving? && s.pipe.carried.None? && |s.pipe.channel| == 0 && s.pipe.returned
  }

  /** One chunk. Streamed output is hashed and held for the consumer; anything
      else is hashed and written, and stops the job when that fails or takes the
      stream over its limit. A stream that is no longer recorded is drained. */
  function OnRead(s: State, stream: Stream, buf: Data, write: WriteOutcome): State {
    var r := if stream.Stdout? then s.out else s.err;
    if !r.rec then s
    else if stream.Stdout? && s.Streaming() then
      s.(out := r.(hashed := r.hashed + buf), pipe := s.pipe.(pending := Some(buf)))
    else
      var taken := Take(r, buf, write, s.max);
      var over := |taken.hashed| > s.max;
      var ctl := s.ctl.(stopped := s.ctl.stopped || write.WriteFailed? || over,
                        fatal := if over && s.ctl.fatal.None? then Some(stream) else s.ctl.fatal);
      if stream.Stdout? then s.(out := taken, ctl := ctl) else s.(err := taken, ctl := ctl)
  }

  /** Both streams have ended, or reading failed: a recorded job is over, a
      streamed one lingers for its consumer. */
  function OnEnd(s: State): State {
    s.(ctl := if s.Streaming() then s.ctl.(eof := true) else s.ctl.(exited := true))
  }

  function OnStreamEnd(s: State, stream: Stream): State {
    var t := if stream.Stdout? then s.(out := s.out.(eof := true)) else s.(err := s.err.(eof := true));
    if t.out.eof && t.err.eof then OnEnd(t) else t
  }

  function OnReplay(s: State, outcome: Playback): State {
    match outcome
    case Played => s.(out := s.out.(file := PlayBack(s.out.file, INTERACTIVE_JOB_BUFFER_SIZE).0))
    case PlayFailed(pos, restored) =>
      if restored then s.(out := s.out.(file := s.out.file.(pos := |s.out.file.data|)))
      else s.(out := s.out.(file := s.out.file.(pos := pos), faulted := true), ctl := s.ctl.(stopped := true))
  }

  function Push(p: Pipe): Pipe
    requires p.pending.Some?
  {
    p.(channel := p.channel + [p.pending.value], pending := None)
  }

  function FlushPipe(p: Pipe): Pipe {
    (if p.pending.Some? && Room(p) then Push(p) else p.(pending := None)).(flushed := true)
  }

  /** Taking a chunk makes room in the channel before the chunk is sent. */
  function ReceivePipe(p: Pipe): Pipe
    requires |p.channel| > 0
  {
    p.(carried := Some(p.channel[0]), channel := p.channel[1..])
  }

  /** The streaming routine sends what it carries. A failed or late send may still
      have reached the client; either way the routine ends. */
  function SendPipe(p: Pipe, ok: bool, landed: bool): Pipe
    requires p.carried.Some?
  {
    var q := p.(sent := if ok || landed then p.sent + [p.carried.value] else p.sent, carried := None);
    if ok then q else q.(channel := [], consumer := Gone)
  }

  function Next(s: State, e: Event): State
    requires Enabled(s, e)
  {
    match e
    case Read(stream, buf, write) => OnRead(s, stream, buf, write)
    case StreamEnd(stream) => OnStreamEnd(s, stream)
    case ReadFailed => OnEnd(s)
    case Permit => s.(pipe := Push(s.pipe))
    case PermitClosed => s.(pipe := s.pipe.(pending := None))
    case Attach(readWrite) =>
      if !readWrite || s.pipe.attached || s.pipe.consumer.Gone? then s
      else s.(pipe := s.pipe.(attached := true))
    case Replay(outcome) => OnReplay(s, outcome)
    case Cancelled => s.(ctl := s.ctl.(stopped := true))
    case StopSeen => s.(ctl := s.ctl.(killed := true))
    case KillTimeout => s.(ctl := s.ctl.(kills := s.ctl.kills + 1))
    case Died => s.(ctl := s.ctl.(dead := true))
    case Expired => s.(ctl := s.ctl.(exited := true, stopped := s.ctl.stopped || s.ctl.eof))
    case NeverAttached => s.(ctl := s.ctl.(exited := true, stopped := true))
    case Finish => s.(ctl := s.ctl.(exited := true))
    case Flush => s.(pipe := FlushPipe(s.pipe))
    case Return => s.(pipe := s.pipe.(returned := true))
    case TakeSocket => s.(pipe := s.pipe.(consumer := Serving))
    case Receive => s.(pipe := ReceivePipe(s.pipe))
    case Send(ok, landed) =>
      s.(pipe := SendPipe(s.pipe, ok, landed), ctl := s.ctl.(stopped := s.ctl.stopped || !ok))
    case Abandon => s.(pipe := s.pipe.(channel := [], consumer := Gone))
    case Close => s.(pipe := s.pipe.(consumer := Gone))
  }

  function Step(s: State, e: Event): State {
    if Enabled(s, e) then Next(s, e) else s
  }

  function Run(s: State, script: seq<Event>): State
    decreases |script|
  {
    if |script| == 0 then s else Step(Run(s, script[..|script| - 1]), script[|script| - 1])
  }

  // ---- Streamed output is conserved

  function Flat(chunks: seq<Data>): Data {
    if |chunks| == 0 then [] else Flat(chunks[..|chunks| - 1]) + chunks[|chunks| - 1]
  }

  lemma {:induction false} FlatAppend(chunks: seq<Data>, buf: Data)
    ensures Flat(chunks + [buf]) == Flat(chunks) + buf
  {
    assert (chunks + [buf])[..|chunks|] == chunks;
  }

  lemma {:induction false} FlatPrefix(some: seq<Data>, all: seq<Data>)
    requires some <= all
    ensures Flat(some) <= Flat(all)
    decreases |all|
  {
    if |some| == |all| {
      assert some == all;
    } else {
      FlatPrefix(some, all[..|all| - 1]);
    }
  }

  function Carried(p: Pipe): seq<Data> {
    if p.carried.Some? then [p.carried.value] else []
  }

  /** The chunks that have left the loop: sent, on their way, and waiting in the
      channel. */
  function Line(p: Pipe): seq<Data> {
    p.sent + Carried(p) + p.channel
  }

  function Held(p: Pipe): Data {
    if p.pending.Some? then p.pending.value else []
  }

  /** Until the consumer is gone or the loop has flushed, every hashed byte is
      sent, in the channel, or pending, in that order. From then on nothing is
      added behind what has left the loop, which stays a prefix of the hashed
      bytes. */
  ghost predicate Carries(p: Pipe, hashed: Data) {
    && (!p.consumer.Gone? && !p.flushed ==> hashed == Flat(Line(p)) + Held(p))
    && Flat(Line(p)) <= hashed
  }

  ghost predicate Conserved(s: State) {
    && (s.Streaming() ==> Carries(s.pipe, s.out.hashed))
    && (!s.Streaming() ==>
          s.pipe.pending.None? && Line(s.pipe) == [] && !s.pipe.attached && s.pipe.consumer.Waiting?)
    && (s.pipe.flushed ==> s.ctl.exited && s.pipe.pending.None?)
    && (s.pipe.returned ==> s.pipe.flushed)
    && (s.pipe.consumer.Gone? ==> s.pipe.channel == [])
    && (!s.pipe.consumer.Serving? ==> s.pipe.carried.None?)
    && (!s.pipe.consumer.Waiting? ==> s.pipe.attached || s.pipe.returned)
  }

  lemma {:induction false} ReadConserves(s: State, stream: Stream, buf: Data, write: WriteOutcome)
    requires Conserved(s) && s.Reading()
    ensures Conserved(OnRead(s, stream, buf, write))
  {
    assert Flat(Line(s.pipe)) + [] + buf == Flat(Line(s.pipe)) + buf;
  }

  lemma {:induction false} PushCarries(p: Pipe, hashed: Data)
    requires Carries(p, hashed) && p.pending.Some? && !p.consumer.Gone? && !p.flushed
    ensures Flat(Line(Push(p))) == hashed
    ensures Carries(Push(p), hashed)
  {
    assert p.sent + Carried(p) + (p.channel + [p.pending.value]) == Line(p) + [p.pending.value];
    FlatAppend(Line(p), p.pending.value);
    assert hashed + [] == hashed;
  }

  lemma {:induction false} SendCarries(p: Pipe, hashed: Data, ok: bool, landed: bool)
    requires Carries(p, hashed) && p.carried.Some?
    ensures Carries(SendPipe(p, ok, landed), hashed)
  {
    var q := SendPipe(p, ok, landed);
    SendShortens(p, ok, landed);
    FlatPrefix(Line(q), Line(p));
  }

  /** Sending moves a chunk along the line; failing to cuts the line there. */
  lemma {:induction false} SendShortens(p: Pipe, ok: bool, landed: bool)
    requires p.carried.Some?
    ensures Line(SendPipe(p, ok, landed)) <= Line(p)
    ensures ok ==> Line(SendPipe(p, ok, landed)) == Line(p)
  {
    var c := p.carried.value;
    assert p.sent + [c] + [] + p.channel == p.sent + [c] + p.channel;
    assert p.sent + [c] + [] + [] == p.sent + [c] && p.sent + [] + [] == p.sent;
  }

  lemma {:induction false} ReceiveKeepsLine(p: Pipe)
    requires p.carried.None? && |p.channel| > 0
    ensures Line(ReceivePipe(p)) == Line(p)
  {
    assert p.sent + [] + p.channel == p.sent + [p.channel[0]] + p.channel[1..];
  }

  lemma {:induction false} AbandonCarries(p: Pipe, hashed: Data)
    requires Carries(p, hashed) && p.carried.None?
    ensures Carries(p.(channel := [], consumer := Gone), hashed)
  {
    assert p.sent + [] + [] == p.sent <= Line(p);
    FlatPrefix(p.sent, Line(p));
  }

  /** The branches that leave the line to the consumer alone. */
  predicate Quiet(e: Event) {
    e.StreamEnd? || e.ReadFailed? || e.Replay? || e.Cancelled? || e.StopSeen? || e.KillTimeout?
    || e.Died? || e.Expired? || e.NeverAttached? || e.Finish?
  }

  lemma {:induction false} QuietStep(s: State, e: Event)
    requires Enabled(s, e) && Quiet(e)
    ensures var t := Next(s, e);
            t.mode == s.mode && t.out.hashed == s.out.hashed && t.pipe == s.pipe && (s.ctl.exited ==> t.ctl.exited)
  {
  }

  lemma {:induction false} LoudStep(s: State, e: Event)
    requires Conserved(s) && Enabled(s, e) && !Quiet(e)
    ensures Conserved(Next(s, e))
  {
    match e {
      case Read(stream, buf, write) => ReadConserves(s, stream, buf, write);
      case Permit => PushCarries(s.pipe, s.out.hashed);
      case Flush =>
        if s.pipe.pending.Some? && Room(s.pipe) {
          PushCarries(s.pipe, s.out.hashed);
        }
      case Receive => ReceiveKeepsLine(s.pipe);
      case Send(ok, landed) => SendCarries(s.pipe, s.out.hashed, ok, landed);
      case Abandon => AbandonCarries(s.pipe, s.out.hashed);
      case _ =>
    }
  }

  lemma {:induction false} StepConserves(s: State, e: Event)
    requires Conserved(s)
    ensures Conserved(Step(s, e))
  {
    if Enabled(s, e) {
      if Quiet(e) {
        QuietStep(s, e);
      } else {
        LoudStep(s, e);
      }
    }
  }

  lemma {:induction false} RunConserves(mode: Mode, max: nat, script: seq<Event>)
    ensures Conserved(Run(Init(mode, max), script))
    decreases |script|
  {
    if |script| > 0 {
      RunConserves(mode, max, script[..|script| - 1]);
      StepConserves(Run(Init(mode, max), script[..|script| - 1]), script[|script| - 1]);
    }
  }

  /** At every point of every run the consumer has been sent a prefix of the
      hashed output, in whole chunks. */
  lemma {:induction false} SentIsPrefix(mode: Mode, max: nat, script: seq<Event>)
    requires mode.StreamOutput?
    ensures var s := Run(Init(mode, max), script);
            Carries(s.pipe, s.out.hashed) && Flat(s.pipe.sent) <= s.out.hashed
  {
    RunConserves(mode, max, script);
    ModeStays(Init(mode, max), script);
    var s := Run(Init(mode, max), script);
    FlatPrefix(s.pipe.sent, Line(s.pipe));
  }

  lemma {:induction false} ModeStays(s: State, script: seq<Event>)
    ensures Run(s, script).mode == s.mode && Run(s, script).max == s.max
    decreases |script|
  {
    if |script| > 0 {
      ModeStays(s, script[..|script| - 1]);
    }
  }

  predicate Shut(p: Pipe) {
    p.consumer.Gone? || p.flushed
  }

  lemma {:induction false} StepAfterShut(s: State, e: Event)
    requires Conserved(s) && Shut(s.pipe)
    ensures Shut(Step(s, e).pipe) && Line(Step(s, e).pipe) <= Line(s.pipe)
  {
    if Enabled(s, e) {
      if Quiet(e) {
        QuietStep(s, e);
      } else if e.Receive? {
        ReceiveKeepsLine(s.pipe);
      } else if e.Send? {
        SendShortens(s.pipe, e.ok, e.landed);
      }
    }
  }

  /** Bytes are dropped only once the line is shut, and nothing joins a line
      that is shut: whatever is sent later was already in it. */
  lemma {:induction false} NothingFollowsADrop(s: State, script: seq<Event>)
    requires Conserved(s) && s.Streaming()
    requires s.out.hashed != Flat(Line(s.pipe)) + Held(s.pipe)
    ensures Line(Run(s, script).pipe) <= Line(s.pipe)
    ensures Conserved(Run(s, script)) && Shut(Run(s, script).pipe)
    decreases |script|
  {
    if |script| > 0 {
      var before := script[..|script| - 1];
      NothingFollowsADrop(s, before);
      StepConserves(Run(s, before), script[|script| - 1]);
      StepAfterShut(Run(s, before), script[|script| - 1]);
    }
  }

  /** A client that received whole messages in order and counted as many bytes
      as the server reports holds exactly the output that was hashed. */
  lemma {:induction false} LengthDecides(mode: Mode, max: nat, script: seq<Event>, received: seq<Data>)
    requires mode.StreamOutput?
    requires received <= Run(Init(mode, max), script).pipe.sent
    ensures var hashed := Run(Init(mode, max), script).out.hashed;
            |Flat(received)| == |hashed| <==> Flat(received) == hashed
  {
    SentIsPrefix(mode, max, script);
    FlatPrefix(received, Run(Init(mode, max), script).pipe.sent);
  }

  ghost predicate Settled(s: State) {
    && Conserved(s) && s.Streaming() && s.ctl.eof && s.pipe.attached && s.pipe.pending.None?
    && Flat(Line(s.pipe)) == s.out.hashed
  }

  predicate Delivering(e: Event) {
    e.Send? ==> e.ok
  }

  lemma {:induction false} StepSettled(s: State, e: Event)
    requires Settled(s) && Delivering(e)
    ensures Settled(Step(s, e)) && Step(s, e).out.hashed == s.out.hashed
  {
    StepConserves(s, e);
    if Enabled(s, e) {
      if Quiet(e) {
        QuietStep(s, e);
      } else if e.Receive? {
        ReceiveKeepsLine(s.pipe);
      } else if e.Send? {
        SendShortens(s.pipe, e.ok, e.landed);
      }
    }
  }

  lemma {:induction false} RunSettled(s: State, script: seq<Event>)
    requires Settled(s) && forall i :: 0 <= i < |script| ==> Delivering(script[i])
    ensures Settled(Run(s, script)) && Run(s, script).out.hashed == s.out.hashed
    decreases |script|
  {
    if |script| > 0 {
      RunSettled(s, script[..|script| - 1]);
      StepSettled(Run(s, script[..|script| - 1]), script[|script| - 1]);
    }
  }

  /** A stream that finishes with its consumer still there loses nothing: once
      the consumer has drained the channel and closed, it was sent everything. */
  lemma {:induction false} FinishedStreamIsWhole(mode: Mode, max: nat, before: seq<Event>, after: seq<Event>)
    requires mode.StreamOutput?
    requires var s := Run(Init(mode, max), before);
             s.Finished() && !s.ctl.exited && !s.pipe.consumer.Gone?
    requires forall i :: 0 <= i < |after| ==> Delivering(after[i])
    ensures var t := Run(Run(Init(mode, max), before), after);
            && t.out.hashed == Run(Init(mode, max), before).out.hashed
            && Flat(Line(t.pipe)) == t.out.hashed
            && (t.pipe.consumer.Gone? ==> Flat(t.pipe.sent) == t.out.hashed)
  {
    var s := Run(Init(mode, max), before);
    RunConserves(mode, max, before);
    ModeStays(Init(mode, max), before);
    assert Flat(Line(s.pipe)) + [] == Flat(Line(s.pipe));
    RunSettled(s, after);
    var t := Run(s, after);
    assert t.pipe.sent + [] + [] == t.pipe.sent;
  }

  // ---- Recorded output is exact and bounded

  lemma {:induction false} WriteAppendsIff(f: File, buf: Data)
    requires |buf| > 0
    ensures WriteAt(f, buf).data == f.data + buf <==> f.pos == |f.data|
  {
    if f.pos == |f.data| {
      assert f.data[..f.pos] == f.data;
    }
  }

  /** What holds of a recorded stream: unless the file met an error, it holds
      exactly the hashed bytes with the position at its end; and recording stops
      within one read of the limit. */
  ghost predicate Exact(r: Recorder, max: nat, buffer: nat) {
    && (!r.faulted ==> r.file == File(r.hashed, |r.hashed|))
    && |r.hashed| <= max + buffer
    && (r.rec <==> |r.hashed| <= max)
  }

  ghost predicate Recorded(s: State) {
    && Exact(s.err, s.max, BufferSize(s.mode))
    && (!s.Streaming() ==> Exact(s.out, s.max, BufferSize(s.mode)))
    && (s.Streaming() ==> s.out.rec && s.out.file == File([], 0))
    && (s.ctl.fatal.Some? <==> !s.out.rec || !s.err.rec)
    && (s.ctl.fatal.Some? ==> s.ctl.stopped && !(if s.ctl.fatal.value.Stdout? then s.out.rec else s.err.rec))
    && s.ctl.kills <= KILL_ATTEMPTS
  }

  lemma {:induction false} TakeIsExact(r: Recorder, buf: Data, write: WriteOutcome, max: nat, buffer: nat)
    requires Exact(r, max, buffer) && r.rec && 0 < |buf| <= buffer
    ensures Exact(Take(r, buf, write, max), max, buffer)
  {
    if write.WriteOk? && !r.faulted {
      WriteAppendsIff(r.file, buf);
    }
  }

  lemma {:induction false} StepRecords(s: State, e: Event)
    requires Recorded(s)
    ensures Recorded(Step(s, e))
  {
    if e.Read? && Enabled(s, e) {
      var r := if e.stream.Stdout? then s.out else s.err;
      if r.rec && !(e.stream.Stdout? && s.Streaming()) {
        TakeIsExact(r, e.buf, e.write, s.max, BufferSize(s.mode));
      }
    }
  }

  /** Over every run: a stream whose file met no error is recorded exactly, the
      reported length is its file's length, recording never runs more than one
      read buffer past the limit, and the job fails for its limit exactly when
      some stream went over it. */
  lemma {:induction false} RunRecords(mode: Mode, max: nat, script: seq<Event>)
    ensures Recorded(Run(Init(mode, max), script))
    decreases |script|
  {
    if |script| > 0 {
      RunRecords(mode, max, script[..|script| - 1]);
      StepRecords(Run(Init(mode, max), script[..|script| - 1]), script[|script| - 1]);
    }
  }

  /** Playback hands a client the last bytes of the output. */
  lemma {:induction false} PlaybackIsSuffix(f: File, size: nat)
    requires f.pos == |f.data|
    ensures var (g, buf) := PlayBack(f, size);
            g == f && buf == f.data[|f.data| - |buf|..] && |buf| == if |f.data| < size then |f.data| else size
  {
  }

  lemma {:induction false} WriteInPieces(f: File, a: Data, b: Data)
    ensures WriteAt(WriteAt(f, a), b) == WriteAt(f, a + b)
  {
    if a == [] {
      assert a + b == b;
    } else if b == [] {
      assert a + b == a;
    }
  }

  /** The file held `kept` when its position was lost at `pos`, and everything hashed
      since was written from there on. */
  ghost predicate Displaced(r: Recorder, kept: Data, pos: nat) {
    kept <= r.hashed && r.file == WriteAt(File(kept, pos), r.hashed[|kept|..])
  }

  lemma {:induction false} TakeDisplaces(r: Recorder, kept: Data, pos: nat, buf: Data, max: nat)
    requires Displaced(r, kept, pos)
    ensures Displaced(Take(r, buf, WriteOk, max), kept, pos)
  {
    WriteInPieces(File(kept, pos), r.hashed[|kept|..], buf);
    assert (r.hashed + buf)[|kept|..] == r.hashed[|kept|..] + buf;
  }

  /** No further error or playback of the recorded output. */
  predicate Clean(e: Event) {
    !e.Replay? && !(e.Read? && e.stream.Stdout? && e.write.WriteFailed?)
  }

  lemma {:induction false} StepDisplaces(s: State, e: Event, kept: Data, pos: nat)
    requires !s.Streaming() && Displaced(s.out, kept, pos) && Clean(e)
    ensures !Step(s, e).Streaming() && Displaced(Step(s, e).out, kept, pos)
  {
    if e.Read? && e.stream.Stdout? {
      TakeDisplaces(s.out, kept, pos, e.buf, s.max);
    }
  }

  lemma {:induction false} RunDisplaces(s: State, script: seq<Event>, kept: Data, pos: nat)
    requires !s.Streaming() && Displaced(s.out, kept, pos) && forall i :: 0 <= i < |script| ==> Clean(script[i])
    ensures !Run(s, script).Streaming() && Displaced(Run(s, script).out, kept, pos)
    decreases |script|
  {
    if |script| > 0 {
      RunDisplaces(s, script[..|script| - 1], kept, pos);
      StepDisplaces(Run(s, script[..|script| - 1]), script[|script| - 1], kept, pos);
    }
  }

  /** The restore after a failed playback is what keeps the record exact. A job
      whose position is lost is only told to stop: output that arrives before it
      dies goes wherever the position was left. So from any point at which the
      record was exact, and however the run goes on without another file error or
      playback, the record stays exact if and only if nothing more is recorded or
      the position happened to be at the end. */
  lemma {:induction false} LostPositionCorrupts(s: State, pos: nat, script: seq<Event>)
    requires Recorded(s) && !s.out.faulted && Enabled(s, Replay(PlayFailed(pos, false)))
    requires forall i :: 0 <= i < |script| ==> Clean(script[i])
    ensures var t := Run(Step(s, Replay(PlayFailed(pos, false))), script);
            && s.out.hashed <= t.out.hashed
            && (t.out.file.data == t.out.hashed <==> t.out.hashed == s.out.hashed || pos == |s.out.hashed|)
  {
    var kept := s.out.hashed;
    var lost := Step(s, Replay(PlayFailed(pos, false)));
    assert kept[|kept|..] == [];
    RunDisplaces(lost, script, kept, pos);
    var t := Run(lost, script);
    var more := t.out.hashed[|kept|..];
    assert t.out.hashed == kept + more;
    if |more| > 0 {
      WriteAppendsIff(File(kept, pos), more);
    }
  }

  // ---- The loop itself

  /** One output stream of a running job: its reader's flags, its hasher and its
      file. */
  class Output {
    var hashed: Data
    var file: File
    var rec: bool
    var eof: bool
    var faulted: bool

    constructor (eof: bool)
      ensures View() == Blank(eof)
    {
      hashed, file, rec, this.eof, faulted := [], File([], 0), true, eof, false;
    }

    function View(): Recorder
      reads this
    {
      Recorder(hashed, file, rec, eof, faulted)
    }

    /** Hash and write a chunk; says whether the write failed and whether the
        stream is now over its limit. */
    method Record(buf: Data, write: WriteOutcome, max: nat) returns (failed: bool, over: bool)
      requires rec
      modifies this
      ensures View() == Take(old(View()), buf, write, max)
      ensures failed == write.WriteFailed? && over == (|hashed| > max)
    {
      hashed := hashed + buf;
      failed := false;
      match write {
        case WriteOk =>
          file := WriteAt(file, buf);
        case WriteFailed(n) =>
          file := WriteAt(file, buf[..if n < |buf| then n else |buf|]);
          faulted := true;
          failed := true;
      }
      over := |hashed| > max;
      if over {
        rec := false;
      }
    }

    /** Seek back from the end of the file and read to it again. */
    method PlayLast(size: nat) returns (buf: Data)
      modifies this`file
      ensures (file, buf) == PlayBack(old(file), size)
    {
      var n := if |file.data| < size then |file.data| else size;
      buf := [];
      if n > 0 {
        file := file.(pos := |file.data| - n);
        buf := file.data[file.pos..file.pos + n];
        assert buf == file.data[|file.data| - n..];
        file := file.(pos := file.pos + n);
      }
    }
  }

  class Job {
    const mode: Mode
    const max: nat
    const out: Output
    const err: Output
    var pending: Option<Data>
    var channel: seq<Data>
    var carried: Option<Data>
    var sent: seq<Data>
    var consumer: Consumer
    var attached: bool
    var flushed: bool
    var returned: bool
    var eof: bool
    var dead: bool
    var killed: bool
    var kills: nat
    var stopped: bool
    var fatal: Option<Stream>
    var exited: bool

    constructor (mode: Mode, max: nat)
      ensures out != err && fresh(out) && fresh(err)
      ensures View() == Init(mode, max)
    {
      this.mode, this.max := mode, max;
      out := new Output(false);
      err := new Output(mode.Interactive?);
      pending, channel, carried, sent, consumer := None, [], None, [], Waiting;
      attached, flushed, returned := false, false, false;
      eof, dead, killed, kills, stopped, fatal, exited := false, false, false, 0, false, None, false;
    }

    function PipeView(): Pipe
      reads this
    {
      Pipe(pending, channel, carried, sent, consumer, attached, flushed, returned)
    }

    function ControlView(): Control
      reads this
    {
      Control(eof, dead, killed, kills, stopped, fatal, exited)
    }

    function View(): State
      reads this, out, err
    {
      State(mode, max, out.View(), err.View(), PipeView(), ControlView())
    }

    method ReadChunk(stream: Stream, buf: Data, write: WriteOutcome)
      requires out != err
      modifies this`pending, this`stopped, this`fatal, out, err
      ensures View() == OnRead(old(View()), stream, buf, write)
    {
      var r := if stream.Stdout? then out else err;
      if !r.rec {
        return;
      }
      if stream.Stdout? && mode.StreamOutput? {
        r.hashed := r.hashed + buf;
        pending := Some(buf);
        return;
      }
      var failed, over := r.Record(buf, write, max);
      if failed {
        stopped := true;
      }
      if over {
        stopped := true;
        if fatal.None? {
          fatal := Some(stream);
        }
      }
    }

    method EndOfOutput()
      modifies this`eof, this`exited
      ensures View() == OnEnd(old(View()))
    {
      if mode.StreamOutput? {
        eof := true;
      } else {
        exited := true;
      }
    }

    method EndStream(stream: Stream)
      requires out != err
      modifies this`eof, this`exited, out, err
      ensures View() == OnStreamEnd(old(View()), stream)
    {
      if stream.Stdout? {
        out.eof := true;
      } else {
        err.eof := true;
      }
      if out.eof && err.eof {
        EndOfOutput();
      }
    }

    method ReplayTo(outcome: Playback)
      requires out != err
      modifies this`stopped, out
      ensures View() == OnReplay(old(View()), outcome)
    {
      match outcome {
        case Played =>
          var _ := out.PlayLast(INTERACTIVE_JOB_BUFFER_SIZE);
        case PlayFailed(pos, restored) =>
          out.file := out.file.(pos := pos);
          if restored {
            out.file := out.file.(pos := |out.file.data|);
          } else {
            out.faulted := true;
            stopped := true;
          }
      }
    }

    /** The branches that read output or move it to the consumer. */
    method SelectOutput(e: Event)
      requires out != err
      requires Enabled(View(), e)
      requires e.Read? || e.StreamEnd? || e.ReadFailed? || e.Permit? || e.PermitClosed? || e.Attach? || e.Replay?
      modifies this, out, err
      ensures View() == Next(old(View()), e)
    {
      match e {
        case Read(stream, buf, write) => ReadChunk(stream, buf, write);
        case StreamEnd(stream) => EndStream(stream);
        case ReadFailed => EndOfOutput();
        case Permit => channel, pending := channel + [pending.value], None;
        case PermitClosed => pending := None;
        case Attach(readWrite) =>
          if readWrite && !attached && !consumer.Gone? {
            attached := true;
          }
        case Replay(outcome) => ReplayTo(outcome);
      }
    }

    /** The branches that stop the job or leave the loop. */
    method SelectControl(e: Event)
      requires Enabled(View(), e)
      requires e.Cancelled? || e.StopSeen? || e.KillTimeout? || e.Died? || e.Expired? || e.NeverAttached? || e.Finish?
      modifies this
      ensures View() == Next(old(View()), e)
    {
      match e {
        case Cancelled => stopped := true;
        case StopSeen => killed := true;
        case KillTimeout => kills := kills + 1;
        case Died => dead := true;
        case Expired =>
          if eof {
            stopped := true;
          }
          exited := true;
        case NeverAttached => stopped, exited := true, true;
        case Finish => exited := true;
      }
    }

    /** After the loop: offer a chunk still pending to the channel, once. */
    method FlushPending()
      modifies this`pending, this`channel, this`flushed
      ensures PipeView() == FlushPipe(old(PipeView()))
    {
      if pending.Some? && !consumer.Gone? && |channel| < OUTPUT_CHANNEL_CAPACITY {
        channel := channel + [pending.value];
      }
      pending, flushed := None, true;
    }

    method SendChunk(ok: bool, landed: bool)
      requires carried.Some?
      modifies this`sent, this`channel, this`carried, this`consumer, this`stopped
      ensures PipeView() == SendPipe(old(PipeView()), ok, landed)
      ensures stopped == (old(stopped) || !ok)
    {
      if ok || landed {
        sent := sent + [carried.value];
      }
      carried := None;
      if !ok {
        channel, consumer, stopped := [], Gone, true;
      }
    }

    /** What follows the loop. */
    method WindUp(e: Event)
      requires Enabled(View(), e)
      requires e.Flush? || e.Return?
      modifies this
      ensures View() == Next(old(View()), e)
    {
      if e.Flush? {
        FlushPending();
      } else {
        returned := true;
      }
    }

    /** The streaming routine moves a chunk from the channel to the client. */
    method Forward(e: Event)
      requires Enabled(View(), e)
      requires e.Receive? || e.Send?
      modifies this
      ensures View() == Next(old(View()), e)
    {
      if e.Receive? {
        channel, carried := channel[1..], Some(channel[0]);
      } else {
        SendChunk(e.ok, e.landed);
      }
    }

    /** The streaming routine begins or ends. */
    method Stream(e: Event)
      requires Enabled(View(), e)
      requires e.TakeSocket? || e.Abandon? || e.Close?
      modifies this
      ensures View() == Next(old(View()), e)
    {
      match e {
        case TakeSocket => consumer := Serving;
        case Abandon => channel, consumer := [], Gone;
        case Close => consumer := Gone;
      }
    }

    /** Any run of the job: what it recorded and sent is what the state machine
        says, whichever ready branch the select takes each time. */
    method Play(script: seq<Event>)
      requires out != err
      modifies this, out, err
      ensures View() == Run(old(View()), script)
    {
      assert script[..0] == [];
      for i := 0 to |script|
        invariant View() == Run(old(View()), script[..i])
      {
        var e := script[i];
        ghost var before := View();
        if Enabled(View(), e) {
          if e.Read? || e.StreamEnd? || e.ReadFailed? || e.Permit? || e.PermitClosed? || e.Attach? || e.Replay? {
            SelectOutput(e);
          } else if e.Flush? || e.Return? {
            WindUp(e);
          } else if e.Receive? || e.Send? {
            Forward(e);
          } else if e.TakeSocket? || e.Abandon? || e.Close? {
            Stream(e);
          } else {
            SelectControl(e);
          }
        }
        assert View() == Step(before, e);
        assert script[..i + 1][..i] == script[..i];
      }
      assert script[..|script|] == script;
    }
  }

  // ---- The client's end of a stream

  /** A message, or what else can end the receive loop; a chunk comes with how
      writing it to the local file ends. */
  datatype Frame = Chunk(buf: Data, write: WriteOutcome) | Other | Closing | Broken | Interrupted
  {
    predicate Fails() { Broken? || Interrupted? || (Chunk? && write.WriteFailed?) }
  }

  /** The chunks hashed: those before the first frame that ends the loop, and the
      one whose write ended it. */
  function Chunks(inbox: seq<Frame>): seq<Data> {
    if |inbox| == 0 then []
    else match inbox[0]
      case Chunk(buf, write) => [buf] + if write.WriteFailed? then [] else Chunks(inbox[1..])
      case Other => Chunks(inbox[1..])
      case _ => []
  }

  predicate EndsWell(inbox: seq<Frame>) {
    |inbox| == 0 || inbox[0].Closing? || (!inbox[0].Fails() && EndsWell(inbox[1..]))
  }

  /** Write a chunk at the end of the local file. */
  method StoreChunk(hashed: Data, file: File, buf: Data, write: WriteOutcome) returns (after: File)
    requires file == File(hashed, |hashed|)
    ensures write.WriteOk? ==> after == File(hashed + buf, |hashed + buf|)
    ensures after.data <= hashed + buf
  {
    assert hashed[..|hashed|] == hashed;
    var kept := if write.WriteOk? then buf else buf[..if write.n < |buf| then write.n else |buf|];
    after := WriteAt(file, kept);
    assert after.data == hashed + kept;
  }

  /** Receive a stream into a file just cut to nothing. The file holds what was
      hashed, or a prefix of it when the loop ends with a failed write. */
  method ReceiveStream(inbox: seq<Frame>) returns (ok: bool, hashed: Data, file: File)
    ensures ok == EndsWell(inbox)
    ensures hashed == Flat(Chunks(inbox))
    ensures ok ==> file == File(hashed, |hashed|)
    ensures file.data <= hashed
  {
    file := File([], 0);
    hashed := [];
    ghost var taken: seq<Data> := [];
    var i := 0;
    while i < |inbox|
      invariant i <= |inbox|
      invariant EndsWell(inbox) == EndsWell(inbox[i..])
      invariant Chunks(inbox) == taken + Chunks(inbox[i..])
      invariant hashed == Flat(taken) && file == File(hashed, |hashed|)
    {
      assert taken + [] == taken && inbox[i..][1..] == inbox[i + 1..];
      match inbox[i] {
        case Chunk(buf, write) =>
          FlatAppend(taken, buf);
          taken := taken + [buf];
          file := StoreChunk(hashed, file, buf, write);
          hashed := hashed + buf;
          if write.WriteFailed? {
            assert taken + [] == taken;
            return false, hashed, file;
          }
        case Other =>
        case Closing =>
          return true, hashed, file;
        case _ =>
          return false, hashed, file;
      }
      i := i + 1;
    }
    assert inbox[i..] == [] && taken + [] == taken;
    ok := true;
  }
}
