/**
 * Uploading to the object store: a stream of chunks becomes a multipart upload
 * of fixed-size parts, completed as a whole or not at all.
 */
module Storage {
  import opened Wrappers

  type Byte = b: int | 0 <= b < 256
  type Bytes = seq<Byte>

  /** Every part but the last has this size. */
  const PART_SIZE: nat := 8 * 1024 * 1024

  /** What the store demands of every part but the last. */
  const MIN_PART: nat := 5 * 1024 * 1024

  datatype StorageError = TooLarge(limit: nat) | Upstream | S3

  // ---------------------------------------------------------------------
  // Parts

  function Flatten(chunks: seq<Bytes>): Bytes {
    if chunks == [] then [] else Flatten(chunks[..|chunks| - 1]) + chunks[|chunks| - 1]
  }

  lemma FlattenSnoc(chunks: seq<Bytes>, c: Bytes)
    ensures Flatten(chunks + [c]) == Flatten(chunks) + c
  {
    assert (chunks + [c])[..|chunks|] == chunks;
  }

  lemma {:induction false} FlattenCons(c: Bytes, chunks: seq<Bytes>)
    ensures Flatten([c] + chunks) == c + Flatten(chunks)
  {
    if chunks == [] {
      assert [c] + chunks == [c];
      assert Flatten([c]) == Flatten([c][..0]) + c;
    } else {
      var init, last := chunks[..|chunks| - 1], chunks[|chunks| - 1];
      assert ([c] + chunks)[..|chunks|] == [c] + init;
      FlattenCons(c, init);
    }
  }

  /** The parts an object is stored in: full parts, then a rest that is empty only
      if the whole object is. */
  function Parts(data: Bytes): (parts: seq<Bytes>)
    ensures parts != []
  {
    if |data| <= PART_SIZE then [data] else [data[..PART_SIZE]] + Parts(data[PART_SIZE..])
  }

  predicate AllFull(parts: seq<Bytes>) {
    forall p :: 0 <= p < |parts| ==> |parts[p]| == PART_SIZE
  }

  /** The parts carry exactly the data, all are full but the last, which is no
      larger, and there are no more of them than the size calls for. */
  lemma {:induction false} PartsCarryData(data: Bytes)
    ensures Flatten(Parts(data)) == data
    ensures AllFull(Parts(data)[..|Parts(data)| - 1]) && |Parts(data)[|Parts(data)| - 1]| <= PART_SIZE
    ensures (|Parts(data)| - 1) * PART_SIZE <= |data|
    ensures Parts(data)[|Parts(data)| - 1] == [] ==> data == []
  {
    if |data| <= PART_SIZE {
      assert Flatten([data]) == Flatten([data][..0]) + data;
    } else {
      var first, rest := data[..PART_SIZE], data[PART_SIZE..];
      PartsCarryData(rest);
      FlattenCons(first, Parts(rest));
      var parts := Parts(data);
      assert parts[|parts| - 1] == Parts(rest)[|Parts(rest)| - 1];
      assert parts[..|parts| - 1] == [first] + Parts(rest)[..|Parts(rest)| - 1];
    }
  }

  lemma PartsCons(first: Bytes, rest: Bytes)
    requires |first| == PART_SIZE && rest != []
    ensures Parts(first + rest) == [first] + Parts(rest)
  {
    assert (first + rest)[..PART_SIZE] == first && (first + rest)[PART_SIZE..] == rest;
  }

  lemma FullPartsAreLong(rest: seq<Bytes>, buf: Bytes)
    requires AllFull(rest) && (rest != [] || buf != [])
    ensures Flatten(rest) + buf != []
  {
    if rest != [] {
      assert |rest[|rest| - 1]| == PART_SIZE;
      assert |Flatten(rest) + buf| >= PART_SIZE;
    }
  }

  /** What the loop has sent and what it still buffers are the parts of the data. */
  lemma {:induction false} SentAndBuffered(sent: seq<Bytes>, buf: Bytes)
    requires AllFull(sent) && |buf| < PART_SIZE
    ensures Parts(Flatten(sent) + buf) == if buf != [] || sent == [] then sent + [buf] else sent
  {
    if sent == [] {
      assert Flatten(sent) + buf == buf;
    } else {
      var first, rest := sent[0], sent[1..];
      assert sent == [first] + rest;
      FlattenCons(first, rest);
      assert Flatten(sent) + buf == first + (Flatten(rest) + buf);
      if rest == [] && buf == [] {
        assert Flatten(rest) + buf == [] && Flatten(sent) + buf == first;
      } else {
        SentAndBuffered(rest, buf);
        FullPartsAreLong(rest, buf);
        PartsCons(first, Flatten(rest) + buf);
        assert sent + [buf] == [first] + (rest + [buf]);
      }
    }
  }

  // ---------------------------------------------------------------------
  // The store

  /** A multipart upload that is neither completed nor aborted. */
  datatype Pending = Pending(key: string, parts: map<nat, Bytes>)

  /** What becomes of the completing request: answered, refused, or carried out
      with its answer lost. */
  datatype Completion = Answered | Refused | AnswerLost

  /** Which requests of one call fail: the environment's choice. */
  datatype Faults = Faults(create: bool, source: Option<nat>, parts: set<nat>, complete: Completion, abort: bool)

  /** Parts numbered from 1. */
  function Numbered(sent: seq<Bytes>): map<nat, Bytes> {
    map n: nat | 1 <= n <= |sent| :: PartAt(sent, n)
  }

  function PartAt(sent: seq<Bytes>, n: nat): Bytes
    requires 1 <= n <= |sent|
  {
    sent[n - 1]
  }

  /** The first `n` part requests go through. */
  predicate PartsPass(faults: Faults, n: nat) {
    forall m <- faults.parts :: m == 0 || m > n
  }

  function UpTo(n: nat): seq<nat> {
    seq(n, i => i + 1)
  }

  /** The listed parts in order. */
  function Assembled(parts: map<nat, Bytes>, numbers: seq<nat>): Bytes
    requires forall i :: 0 <= i < |numbers| ==> numbers[i] in parts
  {
    if numbers == [] then []
    else Assembled(parts, numbers[..|numbers| - 1]) + parts[numbers[|numbers| - 1]]
  }

  lemma {:induction false} AssembledNumbered(sent: seq<Bytes>, n: nat)
    requires n <= |sent|
    ensures Assembled(Numbered(sent), UpTo(n)) == Flatten(sent[..n])
  {
    if n > 0 {
      AssembledNumbered(sent, n - 1);
      assert UpTo(n)[..n - 1] == UpTo(n - 1);
      assert sent[..n][..n - 1] == sent[..n - 1];
    }
  }

  /** A completion the store accepts: some part, listed in ascending order, each
      but the last large enough. */
  predicate Completable(parts: map<nat, Bytes>, numbers: seq<nat>) {
    && numbers != []
    && (forall i :: 0 <= i < |numbers| ==> numbers[i] in parts)
    && (forall i, j :: 0 <= i < j < |numbers| ==> numbers[i] < numbers[j])
    && forall i :: 0 <= i < |numbers| - 1 ==> |parts[numbers[i]]| >= MIN_PART
  }

  /** The store accepts the parts of any data and assembles the data from them. */
  lemma PartsComplete(data: Bytes)
    ensures Completable(Numbered(Parts(data)), UpTo(|Parts(data)|))
    ensures Assembled(Numbered(Parts(data)), UpTo(|Parts(data)|)) == data
  {
    var parts := Parts(data);
    PartsCarryData(data);
    AssembledNumbered(parts, |parts|);
    assert parts[..|parts|] == parts;
    forall i | 0 <= i < |parts| - 1
      ensures |Numbered(parts)[UpTo(|parts|)[i]]| >= MIN_PART
    {
      assert parts[..|parts| - 1][i] == parts[i];
    }
  }

  /** The body arrives to its end. */
  predicate SourceDelivers(chunks: seq<Bytes>, faults: Faults) {
    faults.source.None? || faults.source.value > |chunks|
  }

  /** The upload gets as far as the completing request. */
  predicate Completes(chunks: seq<Bytes>, maxBytes: nat, faults: Faults) {
    && SourceDelivers(chunks, faults) && |Flatten(chunks)| <= maxBytes
    && PartsPass(faults, |Parts(Flatten(chunks))|)
  }

  /** Exactly when an upload is reported as stored. */
  predicate Delivers(chunks: seq<Bytes>, maxBytes: nat, faults: Faults) {
    !faults.create && Completes(chunks, maxBytes, faults) && faults.complete.Answered?
  }

  /** Exactly when an upload stores its object and is reported as failed. */
  predicate StoresUnreported(chunks: seq<Bytes>, maxBytes: nat, faults: Faults) {
    !faults.create && Completes(chunks, maxBytes, faults) && faults.complete.AnswerLost?
  }

  lemma PrefixGrows(chunks: seq<Bytes>, i: nat)
    requires i < |chunks|
    ensures Flatten(chunks[..i + 1]) == Flatten(chunks[..i]) + chunks[i]
    ensures |Flatten(chunks[..i + 1])| <= |Flatten(chunks)|
  {
    assert chunks[..i + 1] == chunks[..i] + [chunks[i]];
    FlattenSnoc(chunks[..i], chunks[i]);
    PrefixIsShorter(chunks, i + 1);
  }

  lemma {:induction false} PrefixIsShorter(chunks: seq<Bytes>, i: nat)
    requires i <= |chunks|
    ensures Flatten(chunks[..i]) <= Flatten(chunks)
  {
    if i == |chunks| {
      assert chunks[..i] == chunks;
    } else {
      assert chunks[..|chunks| - 1][..i] == chunks[..i];
      PrefixIsShorter(chunks[..|chunks| - 1], i);
    }
  }

  /** A part sent while reading belongs to the parts of the whole body. */
  lemma {:induction false} SentAtMostParts(sent: seq<Bytes>, buf: Bytes)
    requires AllFull(sent) && buf != []
    ensures |Parts(Flatten(sent) + buf)| > |sent|
  {
    if sent == [] {
      assert Flatten(sent) + buf == buf;
    } else {
      assert sent == [sent[0]] + sent[1..];
      FlattenCons(sent[0], sent[1..]);
      assert Flatten(sent) + buf == sent[0] + (Flatten(sent[1..]) + buf);
      assert Flatten(sent[1..]) + buf != [] by { assert |Flatten(sent[1..]) + buf| >= |buf| > 0; }
      PartsCons(sent[0], Flatten(sent[1..]) + buf);
      SentAtMostParts(sent[1..], buf);
    }
  }

  lemma FailedPartIsOfTheData(chunks: seq<Bytes>, i: nat, sent: seq<Bytes>, buf: Bytes)
    requires i <= |chunks| && AllFull(sent) && buf != [] && Flatten(sent) + buf == Flatten(chunks[..i])
    ensures |Parts(Flatten(chunks))| > |sent|
  {
    PrefixIsShorter(chunks, i);
    var read, more := Flatten(chunks[..i]), Flatten(chunks)[|Flatten(chunks[..i])|..];
    assert Flatten(chunks) == read + more;
    assert (Flatten(sent) + buf) + more == Flatten(sent) + (buf + more);
    SentAtMostParts(sent, buf + more);
  }

  class ObjectStore {
    var objects: map<string, Bytes>
    var pending: map<nat, Pending>

    constructor ()
      ensures objects == map[] && pending == map[]
    {
      objects, pending := map[], map[];
    }

    method CreateMultipartUpload(key: string, id: nat, fails: bool) returns (ok: bool)
      requires id !in pending
      modifies this`pending
      ensures ok == !fails
      ensures pending == if ok then old(pending)[id := Pending(key, map[])] else old(pending)
    {
      ok := !fails;
      if ok {
        pending := pending[id := Pending(key, map[])];
      }
    }

    method PutPart(id: nat, number: nat, body: Bytes, fails: bool) returns (ok: bool)
      requires id in pending
      modifies this`pending
      ensures ok == !fails
      ensures pending == if ok then
                old(pending)[id := old(pending)[id].(parts := old(pending)[id].parts[number := body])]
              else old(pending)
    {
      ok := !fails;
      if ok {
        pending := pending[id := pending[id].(parts := pending[id].parts[number := body])];
      }
    }

    /** A completion whose answer is lost has happened all the same. */
    method CompleteMultipartUpload(id: nat, numbers: seq<nat>, end: Completion) returns (ok: bool)
      requires id in pending
      modifies this
      ensures ok <==> end.Answered? && Completable(old(pending)[id].parts, numbers)
      ensures if !end.Refused? && Completable(old(pending)[id].parts, numbers) then
                && objects == old(objects)[old(pending)[id].key := Assembled(old(pending)[id].parts, numbers)]
                && pending == old(pending) - {id}
              else objects == old(objects) && pending == old(pending)
    {
      var done := !end.Refused? && Completable(pending[id].parts, numbers);
      if done {
        objects := objects[pending[id].key := Assembled(pending[id].parts, numbers)];
        pending := pending - {id};
      }
      ok := done && end.Answered?;
    }

    method AbortMultipartUpload(id: nat, fails: bool)
      modifies this`pending
      ensures pending == if fails then old(pending) else old(pending) - {id}
    {
      if !fails {
        pending := pending - {id};
      }
    }

    // -------------------------------------------------------------------
    // The upload

    /** The state of the upload inside the loop. */
    ghost predicate Sending(id: nat, key: string, others: map<nat, Pending>, sent: seq<Bytes>)
      reads this
    {
      id !in others && pending == others[id := Pending(key, Numbered(sent))]
    }

    /** Send one part and note its number. */
    method SendPart(id: nat, key: string, number: nat, body: Bytes, fails: bool,
                    ghost others: map<nat, Pending>, ghost sent: seq<Bytes>)
      returns (ok: bool)
      requires Sending(id, key, others, sent) && number == |sent| + 1
      modifies this`pending
      ensures ok == !fails
      ensures Sending(id, key, others, if ok then sent + [body] else sent)
    {
      ok := PutPart(id, number, body, fails);
      assert Numbered(sent + [body]) == Numbered(sent)[number := body];
    }

    /** Flush full parts until less than one is buffered. */
    method Flush(id: nat, key: string, buffered: Bytes, numbers: seq<nat>, faults: Faults,
                 ghost others: map<nat, Pending>, ghost before: seq<Bytes>)
      returns (ok: bool, buf: Bytes, all: seq<nat>, ghost sent: seq<Bytes>)
      requires Sending(id, key, others, before) && AllFull(before) && numbers == UpTo(|before|)
      requires PartsPass(faults, |before|)
      modifies this`pending
      ensures Sending(id, key, others, sent) && AllFull(sent) && all == UpTo(|sent|)
      ensures Flatten(sent) + buf == Flatten(before) + buffered
      ensures ok ==> |buf| < PART_SIZE && PartsPass(faults, |sent|)
      ensures !ok ==> |sent| + 1 in faults.parts && |buf| >= PART_SIZE
    {
      ok, buf, all, sent := true, buffered, numbers, before;
      while |buf| >= PART_SIZE
        invariant ok && Sending(id, key, others, sent) && AllFull(sent) && all == UpTo(|sent|)
        invariant Flatten(sent) + buf == Flatten(before) + buffered
        invariant PartsPass(faults, |sent|)
        decreases |buf|
      {
        var part, number := buf[..PART_SIZE], |all| + 1;
        ok := SendPart(id, key, number, part, number in faults.parts, others, sent);
        if !ok {
          return;
        }
        FlattenSnoc(sent, part);
        assert Flatten(sent) + buf == Flatten(sent + [part]) + buf[PART_SIZE..];
        buf, all, sent := buf[PART_SIZE..], all + [number], sent + [part];
      }
    }

    /** Complete with every part of the data sent. */
    method Complete(id: nat, key: string, numbers: seq<nat>, end: Completion,
                    ghost others: map<nat, Pending>, ghost data: Bytes)
      returns (ok: bool)
      requires Sending(id, key, others, Parts(data)) && numbers == UpTo(|Parts(data)|)
      modifies this
      ensures ok == end.Answered? && (ok ==> pending == others) && pending - {id} == others
      ensures objects == if end.Refused? then old(objects) else old(objects)[key := data]
    {
      PartsComplete(data);
      ok := CompleteMultipartUpload(id, numbers, end);
    }

    /** Send the rest, if there is one or nothing was sent. */
    method SendRest(id: nat, key: string, buf: Bytes, numbers: seq<nat>, faults: Faults,
                    ghost others: map<nat, Pending>, ghost sent: seq<Bytes>)
      returns (ok: bool, all: seq<nat>)
      requires Sending(id, key, others, sent) && AllFull(sent) && numbers == UpTo(|sent|)
      requires |buf| < PART_SIZE && PartsPass(faults, |sent|)
      modifies this`pending
      ensures ok <==> PartsPass(faults, |Parts(Flatten(sent) + buf)|)
      ensures ok ==> Sending(id, key, others, Parts(Flatten(sent) + buf)) && all == UpTo(|Parts(Flatten(sent) + buf)|)
      ensures pending - {id} == others
    {
      SentAndBuffered(sent, buf);
      ok, all := true, numbers;
      if buf != [] || numbers == [] {
        var number := |numbers| + 1;
        ok := SendPart(id, key, number, buf, number in faults.parts, others, sent);
        all := numbers + [number];
      }
    }

    /** Read the chunks, send parts as they fill up, and complete. */
    method UploadParts(id: nat, key: string, maxBytes: nat, chunks: seq<Bytes>, faults: Faults,
                       ghost others: map<nat, Pending>)
      returns (r: Result<nat, StorageError>)
      requires Sending(id, key, others, [])
      modifies this
      ensures r.Ok? <==> Completes(chunks, maxBytes, faults) && faults.complete.Answered?
      ensures r.Ok? ==> r.value == |Flatten(chunks)| && pending == others
      ensures r.Err? ==> pending - {id} == others
      ensures objects == if Completes(chunks, maxBytes, faults) && !faults.complete.Refused?
                         then old(objects)[key := Flatten(chunks)] else old(objects)
      ensures r == Err(TooLarge(maxBytes)) ==> |Flatten(chunks)| > maxBytes
      ensures r.Err? && r.error.TooLarge? ==> r.error.limit == maxBytes
    {
      var buf, numbers, total, i := [], [], 0, 0;
      ghost var sent := [];
      while i < |chunks|
        invariant 0 <= i <= |chunks| && total == |Flatten(chunks[..i])| <= maxBytes
        invariant Sending(id, key, others, sent) && AllFull(sent) && numbers == UpTo(|sent|)
        invariant Flatten(sent) + buf == Flatten(chunks[..i]) && |buf| < PART_SIZE
        invariant PartsPass(faults, |sent|) && objects == old(objects)
        invariant faults.source.Some? ==> faults.source.value >= i
      {
        if faults.source == Some(i) {
          assert pending - {id} == others;
          return Err(Upstream);
        }
        var chunk := chunks[i];
        PrefixGrows(chunks, i);
        total := total + |chunk|;
        if total > maxBytes {
          assert pending - {id} == others;
          return Err(TooLarge(maxBytes));
        }
        var ok, rest, all, done := Flush(id, key, buf + chunk, numbers, faults, others, sent);
        if !ok {
          assert pending - {id} == others;
          FailedPartIsOfTheData(chunks, i + 1, done, rest);
          return Err(S3);
        }
        buf, numbers, sent, i := rest, all, done, i + 1;
      }
      assert chunks[..i] == chunks;
      if faults.source == Some(i) {
        assert pending - {id} == others;
        return Err(Upstream);
      }
      var ok, all := SendRest(id, key, buf, numbers, faults, others, sent);
      if !ok {
        return Err(S3);
      }
      ok := Complete(id, key, all, faults.complete, others, Flatten(chunks));
      return if ok then Ok(total) else Err(S3);
    }

    /** Open the upload, run the part loop, abort on any error. */
    method UploadStreaming(id: nat, key: string, maxBytes: nat, chunks: seq<Bytes>, faults: Faults)
      returns (r: Result<nat, StorageError>)
      requires id !in pending
      modifies this
      ensures r.Ok? <==> Delivers(chunks, maxBytes, faults)
      ensures r.Ok? ==> r.value == |Flatten(chunks)|
      ensures objects == if r.Ok? || StoresUnreported(chunks, maxBytes, faults)
                         then old(objects)[key := Flatten(chunks)] else old(objects)
      ensures r.Ok? || !faults.abort ==> pending == old(pending)
      ensures r.Err? && r.error.TooLarge? ==> r.error.limit == maxBytes && |Flatten(chunks)| > maxBytes
    {
      ghost var others := pending;
      var ok := CreateMultipartUpload(key, id, faults.create);
      if !ok {
        return Err(S3);
      }
      assert Numbered([]) == map[];
      r := UploadParts(id, key, maxBytes, chunks, faults, others);
      if r.Err? {
        AbortMultipartUpload(id, faults.abort);
      }
    }
  }
}
