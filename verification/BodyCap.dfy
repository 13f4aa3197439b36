/** Reading no more of a response body than a cap allows. */
module BodyCap {
  import opened Wrappers

  type byte = bv8

  /** `text` is the retained bytes. */
  datatype CappedBody = CappedBody(text: seq<byte>, truncated: bool, bytes: nat, peakBytes: nat)

  function Joined(chunks: seq<seq<byte>>): seq<byte> {
    if chunks == [] then [] else Joined(chunks[..|chunks| - 1]) + chunks[|chunks| - 1]
  }

  lemma {:induction false} JoinedConcat(a: seq<seq<byte>>, b: seq<seq<byte>>)
    ensures Joined(a + b) == Joined(a) + Joined(b)
  {
    if b == [] {
      assert a + b == a;
    } else {
      var all := a + b;
      assert all[..|all| - 1] == a + b[..|b| - 1];
      JoinedConcat(a, b[..|b| - 1]);
    }
  }

  lemma JoinedSnoc(chunks: seq<seq<byte>>, chunk: seq<byte>)
    ensures Joined(chunks + [chunk]) == Joined(chunks) + chunk
  {
    assert (chunks + [chunk])[..|chunks|] == chunks;
  }

  lemma JoinedPrefix(chunks: seq<seq<byte>>, n: nat)
    requires n <= |chunks|
    ensures Joined(chunks) == Joined(chunks[..n]) + Joined(chunks[n..])
  {
    var front, rest := chunks[..n], chunks[n..];
    assert front + rest == chunks;
    JoinedConcat(front, rest);
  }

  lemma AllTaken(chunks: seq<seq<byte>>, n: nat)
    requires n <= |chunks|
    ensures n == |chunks| ==> chunks[..n] == chunks
  {
  }

  /** Chunks taken one at a time. */
  lemma JoinedNext(chunks: seq<seq<byte>>, k: nat)
    requires k < |chunks|
    ensures Joined(chunks[..k + 1]) == Joined(chunks[..k]) + chunks[k]
  {
    JoinedSnoc(chunks[..k], chunks[k]);
    assert chunks[..k + 1] == chunks[..k] + [chunks[k]];
  }

  function Min(a: nat, b: nat): nat { if a < b then a else b }

  /** `out.set(chunk.subarray(0, take), offset)`. */
  method CopyInto(out: array<byte>, offset: nat, chunk: seq<byte>, take: nat)
    requires take <= |chunk| && offset + take <= out.Length
    modifies out
    ensures out[..offset + take] == old(out[..offset]) + chunk[..take]
  {
    forall i | 0 <= i < take {
      out[offset + i] := chunk[i];
    }
  }

  /** What is laid down so far, and as much of the next chunk as fits. */
  lemma CopiedNext(done: seq<byte>, chunk: seq<byte>, length: nat)
    requires |done| <= length
    ensures var take := Min(|chunk|, length - |done|);
            && |done| + take == Min(length, |done + chunk|)
            && done + chunk[..take] == (done + chunk)[..|done| + take]
  {
  }

  lemma FilledPrefix(done: seq<byte>, rest: seq<byte>, length: nat)
    ensures length <= |done| ==> done[..length] == (done + rest)[..length]
  {
  }

  /** The filled array equals the first `length` bytes of the chunks laid end to end. */
  method Concat(chunks: seq<seq<byte>>, length: nat) returns (out: array<byte>)
    requires length <= |Joined(chunks)|
    ensures fresh(out) && out[..] == Joined(chunks)[..length]
  {
    out := new byte[length];
    var offset, k := 0, 0;
    while k < |chunks| && offset < length
      invariant 0 <= k <= |chunks| && offset == Min(length, |Joined(chunks[..k])|)
      invariant fresh(out) && out.Length == length && out[..offset] == Joined(chunks[..k])[..offset]
    {
      var chunk := chunks[k];
      var take := Min(|chunk|, length - offset);
      assert out[..offset] == Joined(chunks[..k]);
      CopyInto(out, offset, chunk, take);
      JoinedNext(chunks, k);
      CopiedNext(Joined(chunks[..k]), chunk, length);
      offset, k := offset + take, k + 1;
    }
    JoinedPrefix(chunks, k);
    FilledPrefix(Joined(chunks[..k]), Joined(chunks[k..]), length);
    AllTaken(chunks, k);
    assert out[..] == out[..offset];
  }

  /** Takes chunks until the body ends or more than `cap` bytes are held; empty ones are not kept. */
  method TakeChunks(body: seq<seq<byte>>, cap: nat)
    returns (chunks: seq<seq<byte>>, total: nat, truncated: bool, taken: nat)
    ensures taken <= |body| && Joined(chunks) == Joined(body[..taken]) && total == |Joined(chunks)|
    ensures truncated <==> total > cap
    ensures if truncated then taken > 0 && |Joined(body[..taken - 1])| <= cap else taken == |body|
  {
    chunks, total, truncated, taken := [], 0, false, 0;
    while taken < |body| && !truncated
      invariant 0 <= taken <= |body| && Joined(chunks) == Joined(body[..taken]) && total == |Joined(chunks)|
      invariant truncated <==> total > cap
      invariant truncated ==> taken > 0 && |Joined(body[..taken - 1])| <= cap
      decreases |body| - taken
    {
      var value := body[taken];
      JoinedNext(body, taken);
      if |value| > 0 {
        JoinedSnoc(chunks, value);
        chunks := chunks + [value];
        total := total + |value|;
        truncated := total > cap;
      }
      taken := taken + 1;
    }
  }

  /**
   * Reads at most `cap` bytes of `body`, which arrives in chunks of any size, empty ones included; a missing body is an
   * empty one. `taken` is how many chunks were taken before the end or the cancel.
   */
  method ReadCappedBody(body: Option<seq<seq<byte>>>, cap: nat) returns (r: CappedBody, taken: nat)
    ensures var whole := Joined(body.GetOr([]));
            && r.text == whole[..Min(|whole|, cap)]
            && (r.truncated <==> |whole| > cap)
            && r.bytes == Min(|whole|, cap)
    ensures var chunks := body.GetOr([]);
            && taken <= |chunks| && r.peakBytes == |Joined(chunks[..taken])|
            && (if r.truncated then taken > 0 && |Joined(chunks[..taken - 1])| <= cap else r.peakBytes <= cap)
            && (!r.truncated ==> taken == |chunks|)
  {
    if body.None? {
      return CappedBody([], false, 0, 0), 0;
    }
    var chunks, total, truncated;
    chunks, total, truncated, taken := TakeChunks(body.value, cap);
    JoinedPrefix(body.value, taken);
    AllTaken(body.value, taken);
    FilledPrefix(Joined(body.value[..taken]), Joined(body.value[taken..]), Min(total, cap));
    var retained := Concat(chunks, Min(total, cap));
    r := CappedBody(retained[..], truncated, retained.Length, total);
  }
}
