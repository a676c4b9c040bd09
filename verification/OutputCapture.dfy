/**
 Capturing the output of a command: chunks are coalesced as they happen to arrive, cut at a cap, and either buffered or
 streamed as deltas. What comes out depends only on the bytes received, never on how they were cut into chunks.
 */
module OutputCapture {
  import opened Prelude

  newtype Byte = x: int | 0 <= x < 256

  const CHUNK_SIZE_HINT := 64 * 1024

  /** A `CommandExecOutputDelta` notification. */
  datatype Delta = Delta(bytes: seq<Byte>, capReached: bool)

  function Concat(chunks: seq<seq<Byte>>): seq<Byte> {
    if chunks == [] then [] else Concat(chunks[..|chunks| - 1]) + chunks[|chunks| - 1]
  }

  lemma ConcatOneMore(chunks: seq<seq<Byte>>, n: nat)
    requires n < |chunks|
    ensures Concat(chunks[..n + 1]) == Concat(chunks[..n]) + chunks[n]
  {
    assert chunks[..n + 1][..n] == chunks[..n];
  }

  lemma {:induction false} ConcatSplit(chunks: seq<seq<Byte>>, n: nat)
    requires n <= |chunks|
    ensures Concat(chunks[..n]) <= Concat(chunks)
    decreases |chunks| - n
  {
    if n == |chunks| {
      assert chunks[..n] == chunks;
    } else {
      ConcatOneMore(chunks, n);
      ConcatSplit(chunks, n + 1);
    }
  }

  /** The bytes that all deltas carry together. */
  function Streamed(deltas: seq<Delta>): seq<Byte> {
    if deltas == [] then [] else Streamed(deltas[..|deltas| - 1]) + deltas[|deltas| - 1].bytes
  }

  lemma StreamedOneMore(deltas: seq<Delta>, d: Delta)
    ensures Streamed(deltas + [d]) == Streamed(deltas) + d.bytes
  {
    assert (deltas + [d])[..|deltas|] == deltas;
  }

  /** The first `cap` bytes, or all of them. */
  function Capped(bytes: seq<Byte>, cap: Option<nat>): (r: seq<Byte>)
    ensures cap.Some? ==> |r| <= cap.value
  {
    if cap.Some? && cap.value < |bytes| then bytes[..cap.value] else bytes
  }

  /** Cutting byte by byte as they come is cutting at the end. */
  lemma CappedGrows(before: seq<Byte>, chunk: seq<Byte>, cap: Option<nat>)
    ensures Capped(before + chunk, cap)
         == Capped(before, cap)
          + if cap.Some? then chunk[..RoomFor(|Capped(before, cap)|, |chunk|, cap.value)] else chunk
  {
  }

  /** `cap.saturating_sub(observed).min(len)`. */
  function RoomFor(observed: nat, length: nat, cap: nat): (room: nat)
    ensures room <= length
  {
    var left := if cap < observed then 0 else cap - observed;
    if left < length then left else length
  }

  lemma CappedPrefix(before: seq<Byte>, all: seq<Byte>, cap: Option<nat>)
    requires before <= all
    ensures Capped(before, cap) <= Capped(all, cap)
  {
  }

  /** What the chunks taken so far leave after the cut, against what all of them would. */
  lemma KeptIsCapped(chunks: seq<seq<Byte>>, taken: nat, cap: Option<nat>)
    requires taken <= |chunks|
    ensures var kept, all := Capped(Concat(chunks[..taken]), cap), Capped(Concat(chunks), cap);
      kept <= all && (taken == |chunks| || cap == Some(|kept|) ==> kept == all)
  {
    ConcatSplit(chunks, taken);
    CappedPrefix(Concat(chunks[..taken]), Concat(chunks), cap);
    if taken == |chunks| { assert chunks[..taken] == chunks; }
  }

  /** A cap-reached delta is the last one. */
  ghost predicate CapReachedOnlyLast(deltas: seq<Delta>) {
    forall k | 0 <= k < |deltas| - 1 :: !deltas[k].capReached
  }

  /** The deltas carry the kept bytes, and the last of them says whether the cap is reached. */
  ghost predicate DeltasCarry(deltas: seq<Delta>, kept: seq<Byte>, cap: Option<nat>) {
    && Streamed(deltas) == kept && CapReachedOnlyLast(deltas)
    && (deltas != [] ==> (deltas[|deltas| - 1].capReached <==> cap == Some(|kept|)))
  }

  lemma DeltaAdded(deltas: seq<Delta>, kept: seq<Byte>, cut: seq<Byte>, cap: Option<nat>)
    requires DeltasCarry(deltas, kept, cap) && (deltas == [] || cap != Some(|kept|))
    ensures DeltasCarry(deltas + [Delta(cut, cap == Some(|kept + cut|))], kept + cut, cap)
  {
    StreamedOneMore(deltas, Delta(cut, cap == Some(|kept + cut|)));
  }

  /** The part of a chunk that still fits under the cap. */
  method Cut(ghost before: seq<Byte>, chunk: seq<Byte>, observed: nat, cap: Option<nat>)
    returns (cut: seq<Byte>, nowObserved: nat)
    requires observed == if cap.Some? then |Capped(before, cap)| else 0
    ensures Capped(before + chunk, cap) == Capped(before, cap) + cut
    ensures nowObserved == if cap.Some? then |Capped(before, cap) + cut| else 0
  {
    CappedGrows(before, chunk, cap);
    if cap.Some? {
      var room := RoomFor(observed, |chunk|, cap.value);
      cut, nowObserved := chunk[..room], observed + room;
    } else {
      cut, nowObserved := chunk, 0;
    }
  }

  /**
   `spawn_process_output`. `chunks` are the chunks the process writes before the channel closes; which of them a turn
   coalesces, and whether the drain timeout strikes, is up to the scheduler.
   */
  method Capture(chunks: seq<seq<Byte>>, streamOutput: bool, hasProcessId: bool, cap: Option<nat>)
    returns (buffer: seq<Byte>, deltas: seq<Delta>, timedOut: bool)
    ensures !streamOutput && !timedOut ==> buffer == Capped(Concat(chunks), cap)
    ensures !streamOutput && timedOut ==> buffer <= Capped(Concat(chunks), cap)
    ensures !streamOutput ==> deltas == []
    ensures streamOutput && hasProcessId && !timedOut ==> Streamed(deltas) == Capped(Concat(chunks), cap)
    ensures streamOutput && hasProcessId && timedOut ==> Streamed(deltas) <= Capped(Concat(chunks), cap)
    ensures streamOutput && !hasProcessId ==> deltas == []
    ensures streamOutput ==> buffer == []
    ensures cap.Some? ==> |buffer| <= cap.value && |Streamed(deltas)| <= cap.value
    ensures DeltasCarry(deltas, Streamed(deltas), cap)
  {
    buffer, deltas, timedOut := [], [], false;
    var observed, taken, capReached := 0, 0, false;
    ghost var kept: seq<Byte> := [];
    while taken < |chunks| && !capReached
      invariant taken <= |chunks| && kept == Capped(Concat(chunks[..taken]), cap)
      invariant buffer == if streamOutput then [] else kept
      invariant if streamOutput && hasProcessId then DeltasCarry(deltas, kept, cap) else deltas == []
      invariant observed == if cap.Some? then |kept| else 0
      invariant capReached ==> cap == Some(|kept|)
      invariant deltas != [] && cap == Some(|kept|) ==> capReached
      decreases |chunks| - taken
    {
      if * {
        timedOut := true;
        break;
      }
      ghost var before := Concat(chunks[..taken]);
      var chunk, cut;
      chunk, taken := Coalesce(chunks, taken);
      cut, observed := Cut(before, chunk, observed, cap);
      capReached := Some(observed) == cap;
      if streamOutput && hasProcessId {
        DeltaAdded(deltas, kept, cut, cap);
        deltas := deltas + [Delta(cut, capReached)];
      } else if !streamOutput {
        buffer := buffer + cut;
      }
      kept := kept + cut;
    }
    if taken == |chunks| && !capReached {
      if * { timedOut := true; }
    }
    KeptIsCapped(chunks, taken, cap);
  }

  /** One `recv`, then as many ready chunks as fit the size hint. */
  method Coalesce(chunks: seq<seq<Byte>>, start: nat) returns (chunk: seq<Byte>, taken: nat)
    requires start < |chunks|
    ensures start < taken <= |chunks|
    ensures Concat(chunks[..taken]) == Concat(chunks[..start]) + chunk
  {
    chunk, taken := chunks[start], start + 1;
    ConcatOneMore(chunks, start);
    while |chunk| < CHUNK_SIZE_HINT && taken < |chunks|
      invariant start < taken <= |chunks|
      invariant Concat(chunks[..taken]) == Concat(chunks[..start]) + chunk
      decreases |chunks| - taken
    {
      if * { break; }
      ConcatOneMore(chunks, taken);
      chunk, taken := chunk + chunks[taken], taken + 1;
    }
  }
}
