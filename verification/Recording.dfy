/** The check on an uploaded recording that is not compressed: it must begin with the
    magic bytes and stay within the size limit, however it is cut into chunks. */
module Recording {
  const MAGIC: seq<bv8> := [0x49, 0x57, 0x34, 0x58, 0x52, 0x45, 0x43, 0x00]
  const MAX_BYTES := 512 * 0x10_0000

  datatype Status = BadRequest | PayloadTooLarge | UnprocessableEntity

  /** A chunk of the body, or a connection that broke. */
  datatype Chunk = Bytes(b: seq<bv8>) | Broken

  datatype Stored = Accepted(content: seq<bv8>) | Rejected(status: Status)

  function FirstEight(s: seq<bv8>): (r: seq<bv8>)
    ensures |r| <= |MAGIC|
  {
    if |s| <= |MAGIC| then s else s[..|MAGIC|]
  }

  class Head {
    var bytes: seq<bv8>

    constructor ()
      ensures bytes == []
    {
      bytes := [];
    }

    predicate Complete()
      reads this
    {
      |bytes| == |MAGIC|
    }

    /** Takes what is still missing, and accepts it while it continues the magic. */
    method Feed(chunk: seq<bv8>) returns (ok: bool)
      requires bytes <= MAGIC
      modifies this`bytes
      ensures bytes == FirstEight(old(bytes) + chunk)
      ensures ok <==> bytes <= MAGIC
    {
      var rest := chunk;
      assert old(bytes) + chunk == bytes + rest;
      while !Complete() && rest != []
        invariant |bytes| <= |MAGIC| && bytes <= MAGIC
        invariant FirstEight(old(bytes) + chunk) == FirstEight(bytes + rest)
        decreases |rest|
      {
        var want := |MAGIC| - |bytes|;
        var n := if want < |rest| then want else |rest|;
        ghost var all := bytes + rest;
        bytes := bytes + rest[..n];
        rest := rest[n..];
        assert bytes + rest == all;
        if !(bytes <= MAGIC) {
          assert FirstEight(all) == bytes;
          return false;
        }
      }
      assert FirstEight(bytes + rest) == bytes;
      return true;
    }
  }

  // ---- chunk by chunk ----

  function Joined(chunks: seq<Chunk>): seq<bv8> {
    if chunks == [] then []
    else
      var last := |chunks| - 1;
      Joined(chunks[..last]) + if chunks[last].Bytes? then chunks[last].b else []
  }

  predicate Whole(chunks: seq<Chunk>) {
    forall i :: 0 <= i < |chunks| ==> chunks[i].Bytes?
  }

  /** A recording, by its whole content. */
  predicate IsRecording(body: seq<bv8>) {
    MAGIC <= body && |body| <= MAX_BYTES
  }

  lemma {:induction false} FrontJoined(chunks: seq<Chunk>, n: nat)
    requires n <= |chunks|
    ensures Joined(chunks[..n]) <= Joined(chunks)
    decreases |chunks|
  {
    if n == |chunks| {
      assert chunks[..n] == chunks;
    } else {
      var last := |chunks| - 1;
      assert chunks[..last][..n] == chunks[..n];
      FrontJoined(chunks[..last], n);
    }
  }

  /** `store` for an identity-encoded body.  What is accepted depends on the content
      alone; only the status of a refusal can depend on the chunks. */
  method Store(chunks: seq<Chunk>) returns (r: Stored)
    ensures r.Accepted? <==> Whole(chunks) && IsRecording(Joined(chunks))
    ensures r.Accepted? ==> r.content == Joined(chunks)
    ensures r == Rejected(BadRequest) ==> !Whole(chunks)
    ensures r == Rejected(PayloadTooLarge) ==> |Joined(chunks)| > MAX_BYTES
    ensures r == Rejected(UnprocessableEntity) ==> !(MAGIC <= Joined(chunks))
  {
    var head := new Head();
    var received, content := 0, [];
    for i := 0 to |chunks|
      invariant Whole(chunks[..i]) && received == |content| <= MAX_BYTES && content == Joined(chunks[..i])
      invariant head.bytes == FirstEight(content) && head.bytes <= MAGIC
    {
      FrontJoined(chunks, i);
      FrontJoined(chunks, i + 1);
      assert chunks[..i + 1][..i] == chunks[..i];
      if chunks[i].Broken? {
        return Rejected(BadRequest);
      }
      var chunk := chunks[i].b;
      received := received + |chunk|;
      if received > MAX_BYTES {
        return Rejected(PayloadTooLarge);
      }
      FedTogether(content, chunk);
      var ok := head.Feed(chunk);
      if !ok {
        WrongStart(content + chunk, Joined(chunks));
        return Rejected(UnprocessableEntity);
      }
      content := content + chunk;
    }
    assert chunks[..|chunks|] == chunks;
    if !head.Complete() {
      return Rejected(UnprocessableEntity);
    }
    assert head.bytes == MAGIC;
    r := Accepted(content);
  }

  /** The magic is "IW4XREC" and a NUL, the limit 512 MiB. */
  lemma RecordingIs(body: seq<bv8>)
    ensures IsRecording(body) <==>
              8 <= |body| <= 536_870_912 && body[..8] == [0x49, 0x57, 0x34, 0x58, 0x52, 0x45, 0x43, 0x00]
  {
  }

  lemma FedTogether(content: seq<bv8>, chunk: seq<bv8>)
    ensures FirstEight(FirstEight(content) + chunk) == FirstEight(content + chunk)
  {
  }

  lemma WrongStart(front: seq<bv8>, all: seq<bv8>)
    requires front <= all && !(FirstEight(front) <= MAGIC)
    ensures !(MAGIC <= all)
  {
  }

}
