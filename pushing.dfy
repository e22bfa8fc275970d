/**
 The pushing loop of mirror_and_push.py (`push_chunks`).

 Each chunk is wrapped in a payload carrying a 1-based batch number and sent
 to the webhook in order. Sending a payload and checking its HTTP status are
 abstracted as one function `accepted`: a payload the webhook rejects (or a
 transport failure) raises, which aborts the remaining pushes.
 */
module Pushing {
  import Chunking

  /** The JSON body `{"batch_number": i, "items": chunk}`. */
  datatype Payload<T> = Payload(batchNumber: nat, items: seq<T>)

  /** How the loop ended: every batch accepted, or aborted at the first rejected batch. */
  datatype PushOutcome = AllPushed | Aborted(failedBatch: nat)

  /** `enumerate(chunks, start)`, each pair wrapped as a payload. */
  function Enumerate<T>(chunks: seq<seq<T>>, start: nat): (ps: seq<Payload<T>>)
    ensures |ps| == |chunks|
  {
    if chunks == [] then [] else [Payload(start, chunks[0])] + Enumerate(chunks[1..], start + 1)
  }

  /** The payloads `push_chunks` sends, numbered from 1. */
  function Payloads<T>(chunks: seq<seq<T>>): (ps: seq<Payload<T>>)
    ensures |ps| == |chunks|
  {
    Enumerate(chunks, 1)
  }

  /** The records carried by each payload, in payload order. */
  function BatchItems<T>(ps: seq<Payload<T>>): seq<seq<T>>
  {
    if ps == [] then [] else [ps[0].items] + BatchItems(ps[1..])
  }

  lemma {:induction false} EnumerateNumbering<T>(chunks: seq<seq<T>>, start: nat)
    ensures |Enumerate(chunks, start)| == |chunks|
    ensures forall i :: 0 <= i < |chunks| ==> Enumerate(chunks, start)[i] == Payload(start + i, chunks[i])
  {
    if chunks != [] {
      EnumerateNumbering(chunks[1..], start + 1);
    }
  }

  /** Batch numbers are exactly 1, 2, ..., n in chunk order, and payload i carries chunk i unchanged. */
  lemma {:induction false} PayloadsNumbering<T>(chunks: seq<seq<T>>)
    ensures |Payloads(chunks)| == |chunks|
    ensures forall i :: 0 <= i < |chunks| ==>
      Payloads(chunks)[i].batchNumber == i + 1 && Payloads(chunks)[i].items == chunks[i]
  {
    EnumerateNumbering(chunks, 1);
  }

  lemma {:induction false} BatchItemsLength<T>(ps: seq<Payload<T>>)
    ensures |BatchItems(ps)| == |ps|
    ensures forall i :: 0 <= i < |ps| ==> BatchItems(ps)[i] == ps[i].items
  {
    if ps != [] {
      BatchItemsLength(ps[1..]);
    }
  }

  /** Numbering loses nothing: the payloads' items give back the chunks. */
  lemma {:induction false} PayloadsRoundTrip<T>(chunks: seq<seq<T>>)
    ensures BatchItems(Payloads(chunks)) == chunks
  {
    PayloadsNumbering(chunks);
    BatchItemsLength(Payloads(chunks));
  }

  /** The numbered chunks carry every record once, in order: what an all-accepted push delivers. */
  lemma {:induction false} PayloadsCarryAllRecords<T>(data: seq<T>, encLen: T -> nat, maxBytes: int)
    ensures Chunking.Flatten(BatchItems(Payloads(Chunking.Chunks(data, encLen, maxBytes)))) == data
  {
    PayloadsRoundTrip(Chunking.Chunks(data, encLen, maxBytes));
    Chunking.ChunksConcat(data, encLen, maxBytes);
  }

  /**
   `push_chunks`: posts the payloads in order and stops at the first one
   rejected. `pushed` are the payloads the webhook accepted.
   */
  method PushChunks<T>(chunks: seq<seq<T>>, accepted: Payload<T> -> bool)
    returns (pushed: seq<Payload<T>>, outcome: PushOutcome)
    ensures |pushed| <= |chunks| && pushed == Payloads(chunks)[..|pushed|]
    ensures forall i :: 0 <= i < |pushed| ==> pushed[i] == Payload(i + 1, chunks[i]) && accepted(pushed[i])
    ensures outcome == AllPushed <==> |pushed| == |chunks|
    ensures outcome == AllPushed ==> pushed == Payloads(chunks)
    ensures outcome.Aborted? ==>
      && outcome.failedBatch == |pushed| + 1
      && !accepted(Payload(|pushed| + 1, chunks[|pushed|]))
  {
    EnumerateNumbering(chunks, 1);
    pushed := [];
    for i := 0 to |chunks|
      invariant |pushed| == i
      invariant forall j :: 0 <= j < i ==> pushed[j] == Payload(j + 1, chunks[j]) && accepted(pushed[j])
    {
      var payload := Payload(i + 1, chunks[i]);
      if !accepted(payload) {
        return pushed, Aborted(i + 1);
      }
      pushed := pushed + [payload];
    }
    outcome := AllPushed;
  }
}
