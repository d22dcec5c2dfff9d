/** The byte strings that are hashed and signed: labeled, length-prefixed fields
(common/src/keys.rs), for job requests (common/src/jobs.rs), bound requests and
challenge responses (common/src/authn.rs). Identifiers, nonces and keys are their
big-endian bytes. */
module SigningEncoding {
  import opened Bytes
  import opened Targets
  import opened Wrappers

  type Chunk = seq<Byte>

  const LENGTH_BYTES := 8

  // ---- Length-prefixed chunks

  function Chunked(chunks: seq<Chunk>, width: nat): seq<Byte> {
    if |chunks| == 0 then [] else Prefixed(chunks[0], width) + Chunked(chunks[1..], width)
  }

  ghost predicate Fit(chunks: seq<Chunk>, width: nat) {
    forall i :: 0 <= i < |chunks| ==> |chunks[i]| < Pow256(width)
  }

  /** Chunk boundaries can be read back, so the whole list can. */
  lemma {:induction false} ChunkedIsInjective(a: seq<Chunk>, b: seq<Chunk>, width: nat)
    requires width > 0 && Fit(a, width) && Fit(b, width)
    requires Chunked(a, width) == Chunked(b, width)
    ensures a == b
  {
    if |a| > 0 && |b| > 0 {
      TakePrefixed(a[0], Chunked(a[1..], width), width);
      TakePrefixed(b[0], Chunked(b[1..], width), width);
      ChunkedIsInjective(a[1..], b[1..], width);
      assert a == [a[0]] + a[1..] && b == [b[0]] + b[1..];
    }
  }

  lemma {:induction false} Regroup(a: seq<Byte>, b: seq<Byte>, c: seq<Byte>)
    ensures a + (b + c) == a + b + c
  {
  }

  lemma {:induction false} ChunkedAppend(a: seq<Chunk>, b: seq<Chunk>, width: nat)
    ensures Chunked(a + b, width) == Chunked(a, width) + Chunked(b, width)
  {
    if |a| == 0 {
      assert a + b == b;
    } else {
      ChunkedAppend(a[1..], b, width);
      assert (a + b)[1..] == a[1..] + b && (a + b)[0] == a[0];
      Regroup(Prefixed(a[0], width), Chunked(a[1..], width), Chunked(b, width));
    }
  }

  /** The bytes fed to the hasher, field by field. */
  class Fields {
    var hashed: seq<Byte>
    ghost var chunks: seq<Chunk>

    ghost predicate Valid()
      reads this
    {
      hashed == Chunked(chunks, LENGTH_BYTES)
    }

    constructor (typeName: Chunk)
      ensures Valid() && chunks == [typeName]
    {
      hashed, chunks := [], [];
      new;
      Hash(typeName);
    }

    method Hash(data: Chunk)
      requires Valid()
      modifies this
      ensures Valid() && chunks == old(chunks) + [data]
    {
      ChunkedAppend(chunks, [data], LENGTH_BYTES);
      OneChunk(data, LENGTH_BYTES);
      hashed := hashed + Prefixed(data, LENGTH_BYTES);
      chunks := chunks + [data];
    }

    method Field(name: Chunk, value: Chunk)
      requires Valid()
      modifies this
      ensures Valid() && chunks == old(chunks) + [name, value]
    {
      Hash(name);
      Hash(value);
    }
  }

  lemma {:induction false} OneChunk(data: Chunk, width: nat)
    ensures Chunked([data], width) == Prefixed(data, width)
  {
    assert Chunked([data][1..], width) == [];
  }

  // ---- What is signed

  function Ascii(s: string): (b: Chunk)
    ensures |b| == |s|
  {
    seq(|s|, i requires 0 <= i < |s| => s[i] as int % 256)
  }

  datatype Mode = Batch | Interactive | StreamInput | StreamOutput

  function ModeText(mode: Mode): string {
    match mode
    case Batch => "batch"
    case Interactive => "interactive"
    case StreamInput => "stream-input"
    case StreamOutput => "stream-output"
  }

  datatype JobRequest = JobRequest(jobId: Chunk, sessionId: Chunk, command: Chunk, mode: Mode, target: Target)

  datatype BoundRequest = BoundRequest(keyId: Chunk, nonce: Chunk, verb: Chunk, target: Chunk, number: nat)

  datatype ChallengeResponse = ChallengeResponse(nonce: Chunk, cnonce: Chunk, epk: Chunk)

  function JobChunks(r: JobRequest): seq<Chunk> {
    [Ascii("sush_common::jobs::JobStartRequest"),
     Ascii("job_id"), r.jobId, Ascii("session_id"), r.sessionId, Ascii("command"), r.command]
    + (if r.mode.Batch? then [] else [Ascii("mode"), Ascii(ModeText(r.mode))])
    + (if r.target.All? then [] else [Ascii("target"), Show(r.target)])
  }

  function BoundChunks(r: BoundRequest): seq<Chunk> {
    [Ascii("sush_common::authn::BoundRequest"),
     Ascii("key_id"), r.keyId, Ascii("nonce"), r.nonce, Ascii("method"), r.verb, Ascii("target"), r.target,
     Ascii("seq"), BigEndian(r.number, 8)]
  }

  function ResponseChunks(r: ChallengeResponse): seq<Chunk> {
    [Ascii("sush_common::authn::ChallengeResponse"),
     Ascii("nonce"), r.nonce, Ascii("cnonce"), r.cnonce, Ascii("epk"), r.epk]
  }

  method JobToBeSigned(r: JobRequest) returns (hashed: seq<Byte>)
    ensures hashed == Chunked(JobChunks(r), LENGTH_BYTES)
  {
    var fields := new Fields(Ascii("sush_common::jobs::JobStartRequest"));
    fields.Field(Ascii("job_id"), r.jobId);
    fields.Field(Ascii("session_id"), r.sessionId);
    fields.Field(Ascii("command"), r.command);
    ghost var always := fields.chunks;
    assert always == [Ascii("sush_common::jobs::JobStartRequest"), Ascii("job_id"), r.jobId,
                      Ascii("session_id"), r.sessionId, Ascii("command"), r.command];
    if !r.mode.Batch? {
      fields.Field(Ascii("mode"), Ascii(ModeText(r.mode)));
    }
    if !r.target.All? {
      fields.Field(Ascii("target"), Show(r.target));
    }
    assert fields.chunks == JobChunks(r);
    hashed := fields.hashed;
  }

  method BoundToBeSigned(r: BoundRequest) returns (hashed: seq<Byte>)
    ensures hashed == Chunked(BoundChunks(r), LENGTH_BYTES)
  {
    var fields := new Fields(Ascii("sush_common::authn::BoundRequest"));
    fields.Field(Ascii("key_id"), r.keyId);
    fields.Field(Ascii("nonce"), r.nonce);
    fields.Field(Ascii("method"), r.verb);
    fields.Field(Ascii("target"), r.target);
    fields.Field(Ascii("seq"), BigEndian(r.number, 8));
    assert fields.chunks == BoundChunks(r);
    hashed := fields.hashed;
  }

  method ResponseToBeSigned(r: ChallengeResponse) returns (hashed: seq<Byte>)
    ensures hashed == Chunked(ResponseChunks(r), LENGTH_BYTES)
  {
    var fields := new Fields(Ascii("sush_common::authn::ChallengeResponse"));
    fields.Field(Ascii("nonce"), r.nonce);
    fields.Field(Ascii("cnonce"), r.cnonce);
    fields.Field(Ascii("epk"), r.epk);
    assert fields.chunks == ResponseChunks(r);
    hashed := fields.hashed;
  }

  // ---- The encoding is unambiguous

  /** Something that can be signed. */
  datatype Signable = Job(job: JobRequest) | Bound(bound: BoundRequest) | Response(response: ChallengeResponse)

  function Chunks(x: Signable): seq<Chunk> {
    match x
    case Job(r) => JobChunks(r)
    case Bound(r) => BoundChunks(r)
    case Response(r) => ResponseChunks(r)
  }

  function Material(x: Signable): seq<Byte> {
    Chunked(Chunks(x), LENGTH_BYTES)
  }

  /** Every length fits its 64 bits, sequence numbers are 64 bits wide, and a job's
      target is one that some text names. */
  ghost predicate WellFormedSignable(x: Signable) {
    && Fit(Chunks(x), LENGTH_BYTES)
    && (x.Job? ==> WellFormed(x.job.target))
    && (x.Bound? ==> x.bound.number < Pow256(8))
  }

  lemma {:induction false} ModeTextIsInjective(a: Mode, b: Mode)
    requires Ascii(ModeText(a)) == Ascii(ModeText(b))
    ensures a == b
  {
    assert |ModeText(a)| == |ModeText(b)|;
  }

  lemma {:induction false} JobChunksAreInjective(a: JobRequest, b: JobRequest)
    requires WellFormed(a.target) && WellFormed(b.target)
    requires JobChunks(a) == JobChunks(b)
    ensures a == b
  {
    var x, y := JobChunks(a), JobChunks(b);
    assert x[2] == y[2] && x[4] == y[4] && x[6] == y[6];
    assert |Ascii("mode")| == 4 && |Ascii("target")| == 6;
    assert |x| > 7 ==> |x[7]| == |y[7]|;
    assert a.mode.Batch? == b.mode.Batch?;
    if !a.mode.Batch? {
      assert x[8] == Ascii(ModeText(a.mode)) && y[8] == Ascii(ModeText(b.mode));
      ModeTextIsInjective(a.mode, b.mode);
    }
    assert a.target.All? == b.target.All?;
    if !a.target.All? {
      assert x[|x| - 1] == Show(a.target) && y[|y| - 1] == Show(b.target);
      ShowIsInjective(a.target, b.target);
    }
  }

  lemma {:induction false} BoundChunksAreInjective(a: BoundRequest, b: BoundRequest)
    requires a.number < Pow256(8) && b.number < Pow256(8)
    requires BoundChunks(a) == BoundChunks(b)
    ensures a == b
  {
    var x, y := BoundChunks(a), BoundChunks(b);
    assert x[2] == y[2] && x[4] == y[4] && x[6] == y[6] && x[8] == y[8] && x[10] == y[10];
    ValueOfBigEndian(a.number, 8);
    ValueOfBigEndian(b.number, 8);
  }

  lemma {:induction false} ResponseChunksAreInjective(a: ChallengeResponse, b: ChallengeResponse)
    requires ResponseChunks(a) == ResponseChunks(b)
    ensures a == b
  {
    var x, y := ResponseChunks(a), ResponseChunks(b);
    assert x[2] == y[2] && x[4] == y[4] && x[6] == y[6];
  }

  /** The value behind a label, reading label and value in turns from `i`. */
  function Lookup(chunks: seq<Chunk>, name: Chunk, i: nat): Option<Chunk>
    decreases |chunks| - i
  {
    if i + 1 >= |chunks| then None
    else if chunks[i] == name then Some(chunks[i + 1])
    else Lookup(chunks, name, i + 2)
  }

  /** Labels of one length differ in their first letter. */
  lemma {:induction false} FirstLetters()
    ensures Ascii("job_id")[0] == 106 && Ascii("target")[0] == 116
    ensures Ascii("key_id")[0] == 107 && Ascii("method")[0] == 109
  {
  }

  lemma {:induction false} Passes(chunks: seq<Chunk>, name: Chunk, i: nat)
    requires i + 1 < |chunks| && chunks[i] != name
    ensures Lookup(chunks, name, i) == Lookup(chunks, name, i + 2)
  {
  }

  /** Each field of a job request stands behind its own label, and mode and target
      are left out exactly when they are the defaults. */
  lemma {:induction false} JobFieldsAreLabeled(r: JobRequest)
    ensures var chunks := JobChunks(r);
      && Lookup(chunks, Ascii("job_id"), 1) == Some(r.jobId)
      && Lookup(chunks, Ascii("session_id"), 1) == Some(r.sessionId)
      && Lookup(chunks, Ascii("command"), 1) == Some(r.command)
      && Lookup(chunks, Ascii("mode"), 1) == (if r.mode.Batch? then None else Some(Ascii(ModeText(r.mode))))
      && Lookup(chunks, Ascii("target"), 1) == (if r.target.All? then None else Some(Show(r.target)))
  {
    FirstLetters();
    var chunks := JobChunks(r);
    var session, command, mode, target := Ascii("session_id"), Ascii("command"), Ascii("mode"), Ascii("target");
    Passes(chunks, session, 1);
    Passes(chunks, command, 1);
    Passes(chunks, command, 3);
    Passes(chunks, mode, 1);
    Passes(chunks, mode, 3);
    Passes(chunks, mode, 5);
    Passes(chunks, target, 1);
    Passes(chunks, target, 3);
    Passes(chunks, target, 5);
    if !r.mode.Batch? {
      Passes(chunks, target, 7);
    } else if !r.target.All? {
      Passes(chunks, mode, 7);
    }
  }

  /** The same for a bound request, whose number is read back from its eight bytes. */
  lemma {:induction false} BoundFieldsAreLabeled(r: BoundRequest)
    requires r.number < Pow256(8)
    ensures var chunks := BoundChunks(r);
      && Lookup(chunks, Ascii("key_id"), 1) == Some(r.keyId)
      && Lookup(chunks, Ascii("nonce"), 1) == Some(r.nonce)
      && Lookup(chunks, Ascii("method"), 1) == Some(r.verb)
      && Lookup(chunks, Ascii("target"), 1) == Some(r.target)
      && Lookup(chunks, Ascii("seq"), 1).Some? && Value(Lookup(chunks, Ascii("seq"), 1).value) == r.number
  {
    FirstLetters();
    ValueOfBigEndian(r.number, 8);
    var chunks := BoundChunks(r);
    var nonce, verb, target, number := Ascii("nonce"), Ascii("method"), Ascii("target"), Ascii("seq");
    Passes(chunks, nonce, 1);
    Passes(chunks, verb, 1);
    Passes(chunks, verb, 3);
    Passes(chunks, target, 1);
    Passes(chunks, target, 3);
    Passes(chunks, target, 5);
    Passes(chunks, number, 1);
    Passes(chunks, number, 3);
    Passes(chunks, number, 5);
    Passes(chunks, number, 7);
  }

  lemma {:induction false} ResponseFieldsAreLabeled(r: ChallengeResponse)
    ensures var chunks := ResponseChunks(r);
      && Lookup(chunks, Ascii("nonce"), 1) == Some(r.nonce)
      && Lookup(chunks, Ascii("cnonce"), 1) == Some(r.cnonce)
      && Lookup(chunks, Ascii("epk"), 1) == Some(r.epk)
  {
    var chunks := ResponseChunks(r);
    Passes(chunks, Ascii("cnonce"), 1);
    Passes(chunks, Ascii("epk"), 1);
    Passes(chunks, Ascii("epk"), 3);
  }

  /** The type name comes first and differs in length. */
  lemma {:induction false} TypeNamesDiffer(a: Signable, b: Signable)
    requires Chunks(a) == Chunks(b)
    ensures a.Job? == b.Job? && a.Bound? == b.Bound?
  {
    assert |Chunks(a)[0]| == |Chunks(b)[0]|;
  }

  /** Two things that can be signed never give the same bytes to hash, whether of
      the same type or not, although a job's default mode and target are left
      out. */
  lemma {:induction false} MaterialIsInjective(a: Signable, b: Signable)
    requires WellFormedSignable(a) && WellFormedSignable(b) && Material(a) == Material(b)
    ensures a == b
  {
    ChunkedIsInjective(Chunks(a), Chunks(b), LENGTH_BYTES);
    TypeNamesDiffer(a, b);
    match a {
      case Job(r) => JobChunksAreInjective(r, b.job);
      case Bound(r) => BoundChunksAreInjective(r, b.bound);
      case Response(r) => ResponseChunksAreInjective(r, b.response);
    }
  }
}
