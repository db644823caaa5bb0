/**
 A download through the browser, chunk by chunk: `_stream_page_download_to_file`. The page answers
 with one payload at a time, each file operation can fail, and the file is published by renaming.
 */
module Download {
  import opened Common

  /** The page's answer to the request to open the stream. */
  datatype Initial =
    | Unanswered
    | Refused(tooLarge: bool)
    | Opened(token: string, declaredSize: int, contentEncoding: bool)

  /** The page's answer to a request for a chunk: an error, the end, or a chunk with the size the
      page reports. `bytes` is absent when the chunk is not valid Base64. */
  datatype Payload = Unreadable | Error(tooLarge: bool) | Done | Chunk(bytes: Option<Bytes>, size: Option<int>)

  /** The file operations that fail; `write` is the chunk whose writing does. */
  datatype Faults = Faults(mkdir: bool, open: bool, write: Option<nat>, close: bool, replace: bool)

  datatype Failure = TooLarge | DownloadFailed | PageFailed | FileFailed

  datatype Result = Downloaded(size: nat) | Failed(failure: Failure)

  // ---------------------------------------------------------------- what a stream delivers

  /** A chunk that passes the checks. A reported size of zero counts as missing. */
  predicate Sound(payload: Payload) {
    payload.Chunk? && payload.bytes.Some? && payload.size == Some(|payload.bytes.value|) && payload.size != Some(0)
  }

  /** The file: all chunks up to the end of the stream, if every one of them is sound. */
  function Delivered(payloads: seq<Payload>): Option<Bytes> {
    if payloads == [] then None
    else if payloads[0].Done? then Some([])
    else if !Sound(payloads[0]) then None
    else
      var rest := Delivered(payloads[1..]);
      if rest.None? then None else Some(payloads[0].bytes.value + rest.value)
  }

  /** The number of chunks in front of the end of the stream. */
  function Chunks(payloads: seq<Payload>): nat {
    if payloads == [] || !Sound(payloads[0]) then 0 else 1 + Chunks(payloads[1..])
  }

  /** The stream was opened. */
  predicate Open(initial: Initial) {
    initial.Opened? && initial.token != ""
  }

  /** The size that the server declared, where it declared that of the content itself. */
  predicate SizeFits(initial: Initial, size: nat)
    requires initial.Opened?
  {
    initial.declaredSize == 0 || initial.contentEncoding || initial.declaredSize == size
  }

  /** Nothing is wrong with the stream, the size or the file operations. */
  predicate Complete(initial: Initial, payloads: seq<Payload>, maxBytes: int, faults: Faults) {
    && Open(initial) && Delivered(payloads).Some?
    && |Delivered(payloads).value| <= maxBytes && SizeFits(initial, |Delivered(payloads).value|)
    && !faults.mkdir && !faults.open && !faults.close && !faults.replace
    && (faults.write.Some? ==> faults.write.value >= Chunks(payloads))
  }

  /** The chunks received so far. */
  function Received(payloads: seq<Payload>, i: nat): Bytes
    requires i <= |payloads| && forall j | 0 <= j < i :: Sound(payloads[j])
  {
    if i == 0 then [] else
    assert Sound(payloads[i - 1]);
    Received(payloads, i - 1) + payloads[i - 1].bytes.value
  }

  /** The download gets as far as asking for chunk `i`. */
  predicate Asks(payloads: seq<Payload>, i: nat, maxBytes: nat, faults: Faults) {
    && i <= |payloads| && (forall j | 0 <= j < i :: Sound(payloads[j]))
    && |Received(payloads, i)| <= maxBytes
    && (faults.write.Some? ==> faults.write.value >= i)
  }

  /** The page reports that the limit is passed, or the chunk passes it. */
  predicate Passes(payloads: seq<Payload>, i: nat, maxBytes: nat)
    requires i < |payloads| && forall j | 0 <= j < i :: Sound(payloads[j])
  {
    payloads[i] == Error(true) || (Sound(payloads[i]) && |Received(payloads, i + 1)| > maxBytes)
  }

  lemma DeliveredNext(payloads: seq<Payload>, i: nat)
    requires i < |payloads| && Sound(payloads[i])
    ensures var rest := Delivered(payloads[i + 1..]);
      Delivered(payloads[i..]) == if rest.None? then None else Some(payloads[i].bytes.value + rest.value)
    ensures Chunks(payloads[i..]) == 1 + Chunks(payloads[i + 1..])
  {
    assert payloads[i..][0] == payloads[i] && payloads[i..][1..] == payloads[i + 1..];
  }

  lemma {:induction false} DeliveredFrom(payloads: seq<Payload>, i: nat)
    requires i <= |payloads| && forall j | 0 <= j < i :: Sound(payloads[j])
    ensures var rest := Delivered(payloads[i..]);
      Delivered(payloads) == if rest.None? then None else Some(Received(payloads, i) + rest.value)
    ensures Chunks(payloads) == i + Chunks(payloads[i..])
  {
    hide Delivered, Chunks;
    if i == 0 {
      assert payloads[0..] == payloads;
      assert Delivered(payloads).Some? ==> Received(payloads, 0) + Delivered(payloads).value == Delivered(payloads).value;
    } else {
      DeliveredFrom(payloads, i - 1);
      DeliveredNext(payloads, i - 1);
      var rest := Delivered(payloads[i..]);
      if rest.Some? {
        assert Received(payloads, i) + rest.value == Received(payloads, i - 1) + (payloads[i - 1].bytes.value + rest.value);
      }
    }
  }

  /** What was received only grows. */
  lemma {:induction false} ReceivedGrows(payloads: seq<Payload>, i: nat, k: nat)
    requires i <= k <= |payloads| && forall j | 0 <= j < k :: Sound(payloads[j])
    ensures |Received(payloads, i)| <= |Received(payloads, k)|
  {
    if i < k {
      ReceivedGrows(payloads, i, k - 1);
    }
  }

  // ---------------------------------------------------------------- the download

  /** The files of one download in their own fresh directory, and whether the stream in the page
      was cancelled. */
  class Delivery {
    var temp: Option<Bytes>
    var output: Option<Bytes>
    var cancelled: bool

    constructor ()
      ensures temp.None? && output.None? && !cancelled
    {
      temp, output, cancelled := None, None, false;
    }

    /** Writes the chunks to the temporary file until the stream ends. */
    method Receive(payloads: seq<Payload>, maxBytes: nat, faults: Faults) returns (failure: Option<Failure>, total: nat)
      modifies this`temp
      ensures failure.None? <==>
        && !faults.open && !faults.close && Delivered(payloads).Some? && |Delivered(payloads).value| <= maxBytes
        && (faults.write.Some? ==> faults.write.value >= Chunks(payloads))
      ensures failure.None? ==> temp == Delivered(payloads) && total == |temp.value|
      ensures failure == Some(TooLarge) <==>
        !faults.open && exists i | 0 <= i < |payloads| :: Asks(payloads, i, maxBytes, faults) && Passes(payloads, i, maxBytes)
    {
      total := 0;
      if faults.open {
        return Some(FileFailed), total;
      }
      temp := Some([]);
      var i := 0;
      while i < |payloads| && !payloads[i].Done?
        invariant Asks(payloads, i, maxBytes, faults)
        invariant temp == Some(Received(payloads, i)) && total == |Received(payloads, i)|
      {
        DeliveredFrom(payloads, i);
        AsksAtMost(payloads, i, maxBytes, faults);
        var payload := payloads[i];
        if payload.Unreadable? || payload.Error? {
          return Some(if payload.Error? && payload.tooLarge then TooLarge else DownloadFailed), total;
        }
        if payload.bytes.None? {
          return Some(DownloadFailed), total;
        }
        var chunk := payload.bytes.value;
        var size := if payload.size.Some? && payload.size.value != 0 then payload.size.value else -1;
        if |chunk| != size {
          return Some(DownloadFailed), total;
        }
        total := total + |chunk|;
        if total > maxBytes {
          OverLimit(payloads, i, maxBytes);
          return Some(TooLarge), total;
        }
        if faults.write == Some(i) {
          return Some(FileFailed), total;
        }
        temp := Some(temp.value + chunk);
        i := i + 1;
      }
      DeliveredFrom(payloads, i);
      AsksAtMost(payloads, i, maxBytes, faults);
      // a page that does not answer any more is an error of the call that asks it
      if i == |payloads| {
        return Some(PageFailed), total;
      }
      assert payloads[i..][0].Done?;
      assert Received(payloads, i) + [] == Received(payloads, i);
      if faults.close {
        return Some(FileFailed), total;
      }
      return None, total;
    }

    /** The temporary file becomes the output file, if the size is the declared one. */
    method Publish(initial: Initial, total: nat, faults: Faults) returns (failure: Option<Failure>)
      requires initial.Opened? && temp.Some? && output.None?
      modifies this`temp, this`output
      ensures failure.None? <==> SizeFits(initial, total) && !faults.replace
      ensures output == if failure.None? then old(temp) else None
      ensures failure != Some(TooLarge)
    {
      if initial.declaredSize != 0 && !initial.contentEncoding && total != initial.declaredSize {
        return Some(DownloadFailed);
      }
      if faults.replace {
        return Some(FileFailed);
      }
      output, temp := temp, None;
      return None;
    }

    /** All or nothing. A download that succeeds has published the concatenation of all chunks,
        within the limit and of the declared size; it succeeds exactly when nothing is wrong; one
        that fails has published nothing; and the temporary file is gone either way. */
    method Stream(initial: Initial, payloads: seq<Payload>, maxBytes: nat, faults: Faults) returns (result: Result)
      requires temp.None? && output.None? && !cancelled
      modifies this
      ensures result.Downloaded? <==> Complete(initial, payloads, maxBytes, faults)
      ensures result.Downloaded? ==> output == Delivered(payloads) && result.size == |output.value|
      ensures result.Failed? ==> output.None?
      ensures temp.None?
      ensures cancelled <==> result.Failed? && Open(initial) && !faults.mkdir
      ensures result == Failed(TooLarge) <==>
        || initial == Refused(true)
        || (Open(initial) && !faults.mkdir && !faults.open
            && exists i | 0 <= i < |payloads| :: Asks(payloads, i, maxBytes, faults) && Passes(payloads, i, maxBytes))
    {
      if initial.Unanswered? {
        return Failed(PageFailed);
      }
      if initial.Refused? {
        return Failed(if initial.tooLarge then TooLarge else DownloadFailed);
      }
      if initial.token == "" {
        return Failed(DownloadFailed);
      }
      if faults.mkdir {
        return Failed(FileFailed);
      }
      var failure, total := Receive(payloads, maxBytes, faults);
      if failure.None? {
        failure := Publish(initial, total, faults);
      }
      if failure.Some? {
        cancelled := true;
      }
      temp := None;
      return if failure.Some? then Failed(failure.value) else Downloaded(total);
    }
  }

  /** Nothing is asked for beyond a chunk that is not sound. */
  lemma AsksAtMost(payloads: seq<Payload>, i: nat, maxBytes: nat, faults: Faults)
    requires Asks(payloads, i, maxBytes, faults)
    ensures forall k | 0 <= k < i :: !Passes(payloads, k, maxBytes)
    ensures i < |payloads| && !Sound(payloads[i]) ==> forall k | i < k :: !Asks(payloads, k, maxBytes, faults)
  {
    forall k | 0 <= k < i
      ensures !Passes(payloads, k, maxBytes)
    {
      ReceivedGrows(payloads, k + 1, i);
    }
  }

  /** A chunk over the limit: whatever follows, the stream delivers too much or nothing. */
  lemma OverLimit(payloads: seq<Payload>, i: nat, maxBytes: nat)
    requires i < |payloads| && (forall j | 0 <= j <= i :: Sound(payloads[j])) && |Received(payloads, i + 1)| > maxBytes
    ensures Delivered(payloads).Some? ==> |Delivered(payloads).value| > maxBytes
  {
    DeliveredFrom(payloads, i + 1);
  }

  // ---------------------------------------------------------------- what is delivered

  /** A stream delivers a file exactly if it ends, and every chunk in front of its end is sound;
      the file is then those chunks in their order. */
  lemma {:induction false} DeliveredExactly(payloads: seq<Payload>, i: nat)
    requires i <= |payloads| && (forall j | 0 <= j < i :: Sound(payloads[j]))
    requires i < |payloads| ==> !Sound(payloads[i])
    ensures Delivered(payloads).Some? <==> i < |payloads| && payloads[i].Done?
    ensures Delivered(payloads).Some? ==> Delivered(payloads).value == Received(payloads, i)
    ensures Chunks(payloads) == i
  {
    DeliveredFrom(payloads, i);
    if i < |payloads| {
      assert payloads[i..][0] == payloads[i];
    }
    assert Received(payloads, i) + [] == Received(payloads, i);
  }

  /** The page may send an empty chunk with its true size, zero; that download fails. */
  lemma EmptyChunkFails(payloads: seq<Payload>, i: nat)
    requires i < |payloads| && (forall j | 0 <= j < i :: Sound(payloads[j]))
    requires payloads[i] == Chunk(Some([]), Some(0))
    ensures Delivered(payloads).None?
  {
    DeliveredFrom(payloads, i);
    assert payloads[i..][0] == payloads[i];
  }
}
