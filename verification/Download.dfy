/** Downloading recorded output in parallel chunks (client/src/commands.rs) from a
server that checks each byte range (server/src/output.rs). */
module Download {
  import opened JobLoop
  import opened Wrappers

  /** 128 MB. */
  const OUTPUT_THRESHOLD := 128_000_000

  // ---- The server's range check

  datatype End = Index(index: nat) | LastByte

  datatype Range = Range(start: nat, end: End)

  datatype Reply = Bytes(bytes: Data) | InvalidRange | OutputTooBig

  /** Ranges include both their ends. */
  function Serve(output: Data, range: Option<Range>): Reply {
    var len := |output|;
    match range
    case Some(Range(start, end)) =>
      if start >= len then InvalidRange
      else
        var n := match end
          case Index(end) => if start <= end < len then end - start + 1 else 0
          case LastByte => len - start;
        if n == 0 || n > len || n > OUTPUT_THRESHOLD then InvalidRange
        else Bytes(output[start..start + n])
    case None => if len > OUTPUT_THRESHOLD then OutputTooBig else Bytes(output)
  }

  /** The ways to ask for the same bytes agree: to the last byte or by its index,
      and, for an output within the threshold, all of it or all of its range. */
  lemma {:induction false} RangesAgree(output: Data, start: nat)
    requires |output| > 0
    ensures Serve(output, Some(Range(start, LastByte))) == Serve(output, Some(Range(start, Index(|output| - 1))))
    ensures Serve(output, None).Bytes? ==> Serve(output, Some(Range(0, LastByte))) == Serve(output, None)
    ensures Serve(output, None).OutputTooBig? ==> Serve(output, Some(Range(0, LastByte))).InvalidRange?
  {
    assert output[0..|output|] == output;
  }

  // ---- The client's chunks

  datatype Span = Span(start: nat, end: nat)
  {
    function Len(): int { end - start + 1 }
  }

  /** Chunks that cover `[from, to)` in order, each starting where the one before
      it ended. */
  ghost predicate Tiles(spans: seq<Span>, from: nat, to: nat) {
    && (if |spans| == 0 then from == to else spans[0].start == from && spans[|spans| - 1].end == to - 1)
    && (forall i :: 0 <= i < |spans| ==> spans[i].start <= spans[i].end < to)
    && (forall i :: 0 < i < |spans| ==> spans[i].start == spans[i - 1].end + 1)
  }

  lemma {:induction false} TilesGrow(spans: seq<Span>, from: nat, to: nat, end: nat)
    requires Tiles(spans, from, to) && to <= end
    ensures Tiles(spans + [Span(to, end)], from, end + 1)
  {
    var more := spans + [Span(to, end)];
    assert more[|spans|] == Span(to, end) && forall i :: 0 <= i < |spans| ==> more[i] == spans[i];
  }

  method JobOutputChunks(len: nat, chunkSize: nat) returns (spans: seq<Span>)
    requires chunkSize > 0
    ensures Tiles(spans, 0, len)
    ensures forall i :: 0 <= i < |spans| - 1 ==> spans[i].Len() == chunkSize
    ensures |spans| > 0 ==> 0 < spans[|spans| - 1].Len() <= chunkSize
    ensures |spans| > 0 ==> spans[0].Len() == if chunkSize < len then chunkSize else len
  {
    spans := [];
    var start := 0;
    while start < len
      invariant start <= len && Tiles(spans, 0, start)
      invariant forall i :: 0 <= i < |spans| - 1 ==> spans[i].Len() == chunkSize
      invariant |spans| > 0 ==> 0 < spans[|spans| - 1].Len() <= chunkSize
      invariant |spans| > 0 && start < len ==> spans[|spans| - 1].Len() == chunkSize
      invariant |spans| > 0 ==> spans[0].Len() == if chunkSize < len then chunkSize else len
    {
      var end := if start + chunkSize - 1 < len - 1 then start + chunkSize - 1 else len - 1;
      TilesGrow(spans, 0, start, end);
      spans := spans + [Span(start, end)];
      start := end + 1;
    }
  }

  /** Every byte of the output is in exactly one chunk. */
  lemma {:induction false} TilesPartition(spans: seq<Span>, len: nat, p: nat)
    requires Tiles(spans, 0, len) && p < len
    ensures exists i :: 0 <= i < |spans| && spans[i].start <= p <= spans[i].end
    ensures forall i, j :: 0 <= i < j < |spans| ==> spans[i].end < spans[j].start
  {
    var i := 0;
    while i + 1 < |spans| && spans[i].end < p
      invariant 0 <= i < |spans| && spans[i].start <= p
    {
      i := i + 1;
    }
    forall i, j | 0 <= i < j < |spans|
      ensures spans[i].end < spans[j].start
    {
      InTurn(spans, len, i, j);
    }
  }

  lemma {:induction false} InTurn(spans: seq<Span>, len: nat, i: nat, j: nat)
    requires Tiles(spans, 0, len) && i < j < |spans|
    ensures spans[i].end < spans[j].start
    decreases j - i
  {
    if i + 1 < j {
      InTurn(spans, len, i, j - 1);
    }
  }

  // ---- Putting the output back together

  /** What arrives of a reply: its pieces so far, and whether the stream then broke
      off with an error. */
  datatype Arrival = Arrival(pieces: seq<Data>, broken: bool)

  /** Write the pieces of a reply one after the other. */
  method ByteStreamToFile(file: File, arrival: Arrival, span: Span) returns (after: File, ok: bool)
    ensures after == WriteAt(file.(pos := span.start), Flat(arrival.pieces))
    ensures ok <==> !arrival.broken && |Flat(arrival.pieces)| == span.Len()
  {
    var pieces := arrival.pieces;
    after := file.(pos := span.start);
    var n := 0;
    for i := 0 to |pieces|
      invariant after == WriteAt(file.(pos := span.start), Flat(pieces[..i]))
      invariant n == |Flat(pieces[..i])|
    {
      assert pieces[..i + 1] == pieces[..i] + [pieces[i]];
      FlatAppend(pieces[..i], pieces[i]);
      WriteInPieces(file.(pos := span.start), Flat(pieces[..i]), pieces[i]);
      after := WriteAt(after, pieces[i]);
      n := n + |pieces[i]|;
    }
    assert pieces[..|pieces|] == pieces;
    ok := !arrival.broken && n == span.Len();
  }

  function Asked(span: Span): Option<Range> {
    Some(Range(span.start, Index(span.end)))
  }

  predicate Accepted(output: Data, span: Span) {
    Serve(output, Asked(span)).Bytes?
  }

  /** The server serves every chunk exactly when the output is as long as the client
      thinks it is, or longer, and its largest chunk is within the threshold. */
  lemma {:induction false} AllServedIff(output: Data, len: nat, chunkSize: nat, spans: seq<Span>)
    requires chunkSize > 0 && Tiles(spans, 0, len) && len > 0
    requires forall i :: 0 <= i < |spans| ==> spans[i].Len() <= chunkSize
    requires spans[0].Len() == if chunkSize < len then chunkSize else len
    ensures (forall i :: 0 <= i < |spans| ==> Accepted(output, spans[i])) <==>
            len <= |output| && (chunkSize <= OUTPUT_THRESHOLD || len <= OUTPUT_THRESHOLD)
  {
    var last := spans[|spans| - 1];
    assert forall i :: 0 <= i < |spans| ==>
        (Accepted(output, spans[i]) <==> spans[i].end < |output| && spans[i].Len() <= OUTPUT_THRESHOLD);
    assert last.end == len - 1;
    assert Accepted(output, last) ==> len <= |output|;
    assert Accepted(output, spans[0]) ==> spans[0].Len() <= OUTPUT_THRESHOLD;
  }

  /** The file holds the output wherever a chunk has been written. */
  ghost predicate Rebuilt(data: Data, output: Data, spans: seq<Span>, written: set<nat>) {
    && |data| <= |output|
    && (forall i <- written :: i < |spans| && spans[i].end < |data|)
    && (forall i, p | i in written && spans[i].start <= p <= spans[i].end :: data[p] == output[p])
  }

  lemma {:induction false} WriteRebuilds(f: File, output: Data, spans: seq<Span>, written: set<nat>, i: nat)
    requires Rebuilt(f.data, output, spans, written) && i < |spans|
    requires spans[i].start <= spans[i].end < |output|
    ensures var g := WriteAt(f.(pos := spans[i].start), output[spans[i].start..spans[i].end + 1]);
            Rebuilt(g.data, output, spans, written + {i})
            && |g.data| == if |f.data| <= spans[i].end then spans[i].end + 1 else |f.data|
  {
    var s := spans[i];
    var g := WriteAt(f.(pos := s.start), output[s.start..s.end + 1]);
    assert forall p :: s.start <= p <= s.end ==> g.data[p] == output[p];
    assert forall p :: 0 <= p < |f.data| && (p < s.start || p > s.end) ==> g.data[p] == f.data[p];
  }

  /** The chunk is served, and its reply arrives to the end. */
  predicate Whole(output: Data, span: Span, arrival: Arrival) {
    Accepted(output, span) && !arrival.broken && |Flat(arrival.pieces)| == |Serve(output, Asked(span)).bytes|
  }

  lemma {:induction false} WholeIsExact(output: Data, span: Span, arrival: Arrival)
    requires Accepted(output, span) && Flat(arrival.pieces) <= Serve(output, Asked(span)).bytes
    ensures span.start <= span.end < |output|
    ensures Whole(output, span, arrival) <==> !arrival.broken && |Flat(arrival.pieces)| == span.Len()
    ensures Whole(output, span, arrival) ==> Flat(arrival.pieces) == output[span.start..span.end + 1]
  {
  }

  /** One reply, from the request to the file. */
  method Fetch(output: Data, file: File, span: Span, arrival: Arrival) returns (after: File, ok: bool)
    requires Accepted(output, span) ==> Flat(arrival.pieces) <= Serve(output, Asked(span)).bytes
    ensures ok <==> Whole(output, span, arrival)
    ensures ok ==> span.start <= span.end < |output|
                   && after == WriteAt(file.(pos := span.start), output[span.start..span.end + 1])
  {
    if !Accepted(output, span) {
      return file, false;
    }
    WholeIsExact(output, span, arrival);
    after, ok := ByteStreamToFile(file, arrival, span);
  }

  /** The chunks as they arrive, in any order, in any pieces, and possibly breaking
      off: the download succeeds exactly when the server serves every chunk and every
      reply arrives whole, and then the file is the server's output. */
  method Assemble(output: Data, len: nat, spans: seq<Span>, order: seq<nat>, arrivals: seq<Arrival>)
    returns (r: Option<Data>)
    requires Tiles(spans, 0, len)
    requires forall k :: 0 <= k < |order| ==> order[k] < |spans|
    requires forall i :: 0 <= i < |spans| ==> i in order
    requires |arrivals| == |order|
    requires forall k :: 0 <= k < |order| && Accepted(output, spans[order[k]]) ==>
               Flat(arrivals[k].pieces) <= Serve(output, Asked(spans[order[k]])).bytes
    ensures r.Some? <==> forall k :: 0 <= k < |order| ==> Whole(output, spans[order[k]], arrivals[k])
    ensures r.Some? ==> len <= |output| && r.value == output[..len]
  {
    var file := File([], 0);
    ghost var written: set<nat> := {};
    for k := 0 to |order|
      invariant Rebuilt(file.data, output, spans, written)
      invariant |file.data| <= len
      invariant forall j :: 0 <= j < k ==> order[j] in written && Whole(output, spans[order[j]], arrivals[j])
      invariant forall i <- written :: i < |spans|
    {
      var i := order[k];
      var after, ok := Fetch(output, file, spans[i], arrivals[k]);
      if !ok {
        return None;
      }
      WriteRebuilds(file, output, spans, written, i);
      file := after;
      written := written + {i};
    }
    forall i | 0 <= i < |spans|
      ensures i in written
    {
      assert i in order;
    }
    Complete(file.data, output, len, spans, written);
    r := Some(file.data);
  }

  lemma {:induction false} Complete(data: Data, output: Data, len: nat, spans: seq<Span>, written: set<nat>)
    requires Tiles(spans, 0, len) && Rebuilt(data, output, spans, written) && |data| <= len
    requires forall i :: 0 <= i < |spans| ==> i in written
    ensures len <= |output| && data == output[..len]
  {
    if |spans| > 0 {
      assert |spans| - 1 in written;
    }
    forall p | 0 <= p < len
      ensures p < |data| && data[p] == output[p]
    {
      TilesPartition(spans, len, p);
      var i :| 0 <= i < |spans| && spans[i].start <= p <= spans[i].end;
      assert i in written;
    }
  }
}
