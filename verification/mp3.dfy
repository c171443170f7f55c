/** The MP3 chunking driver of `createMp3Blob`. The encoder itself (lamejs) is
    foreign code and is kept abstract: a state created from (channels, rate,
    kbps), a buffer-encoding step and a final flush. */
module Mp3 {
  import opened Wrappers
  import opened Bytes

  /** Samples per `encodeBuffer` call: one MPEG-1 Layer III frame (ISO/IEC 11172-3). */
  const SampleBlockSize: nat := 1152
  const Channels: int := 1
  const Kbps: int := 128
  const Mp3Mime: string := "audio/mp3"
  const LameMissing: string := "lamejs library not loaded"

  /** An MP3 encoder backend: `new Mp3Encoder(channels, rate, kbps)`,
      `encodeBuffer(samples)` and `flush()`, each step threading the encoder's
      internal state and returning the bytes it produced. */
  datatype Encoder<!S> = Encoder(
    init: (int, int, int) -> S,
    encodeBuffer: (S, seq<Sample>) -> (S, seq<Byte>),
    flush: S -> (S, seq<Byte>))

  /** One call the driver makes on the encoder. */
  datatype Call = EncodeCall(block: seq<Sample>) | FlushCall

  function Min(a: int, b: int): int {
    if a <= b then a else b
  }

  /** Number of passes of the driver's loop over `n` samples: ceil(n / 1152). */
  function NumBlocks(n: nat): nat {
    (n + SampleBlockSize - 1) / SampleBlockSize
  }

  lemma NumBlocksBounds(n: nat)
    ensures NumBlocks(n) * SampleBlockSize >= n
    ensures n == 0 <==> NumBlocks(n) == 0
    ensures NumBlocks(n) > 0 ==> (NumBlocks(n) - 1) * SampleBlockSize < n
  {
  }

  /** The `k`-th block, `pcm.subarray(k * 1152, k * 1152 + 1152)` (the end clamped to
      the length, as `subarray` does). */
  function Block(pcm: seq<Sample>, k: nat): seq<Sample>
    requires k < NumBlocks(|pcm|)
  {
    NumBlocksBounds(|pcm|);
    pcm[k * SampleBlockSize..Min(k * SampleBlockSize + SampleBlockSize, |pcm|)]
  }

  /** The blocks the driver hands to the encoder, in order. */
  function Blocks(pcm: seq<Sample>): seq<seq<Sample>> {
    seq(NumBlocks(|pcm|), k requires 0 <= k < NumBlocks(|pcm|) => Block(pcm, k))
  }

  /** The blocks partition the samples in order: their concatenation is the input,
      each block holds between 1 and 1152 samples, and all but the last hold exactly
      1152. */
  lemma BlocksPartition(pcm: seq<Sample>)
    ensures Concat(Blocks(pcm)) == pcm
    ensures |Blocks(pcm)| * SampleBlockSize >= |pcm|
    ensures |Blocks(pcm)| > 0 ==> (|Blocks(pcm)| - 1) * SampleBlockSize < |pcm|
    ensures forall k :: 0 <= k < |Blocks(pcm)| ==> 0 < |Blocks(pcm)[k]| <= SampleBlockSize
    ensures forall k :: 0 <= k < |Blocks(pcm)| - 1 ==> |Blocks(pcm)[k]| == SampleBlockSize
  {
    NumBlocksBounds(|pcm|);
    PrefixConcat(pcm, NumBlocks(|pcm|));
    assert Blocks(pcm)[..NumBlocks(|pcm|)] == Blocks(pcm);
    assert Min(NumBlocks(|pcm|) * SampleBlockSize, |pcm|) == |pcm|;
  }

  /** The first `j` blocks cover exactly the first `min(j * 1152, n)` samples. */
  lemma {:induction false} PrefixConcat(pcm: seq<Sample>, j: nat)
    requires j <= NumBlocks(|pcm|)
    ensures Concat(Blocks(pcm)[..j]) == pcm[..Min(j * SampleBlockSize, |pcm|)]
  {
    NumBlocksBounds(|pcm|);
    var bs := Blocks(pcm);
    if j > 0 {
      PrefixConcat(pcm, j - 1);
      assert bs[..j][..j - 1] == bs[..j - 1];
      assert (j - 1) * SampleBlockSize < |pcm|;
      assert Min((j - 1) * SampleBlockSize, |pcm|) == (j - 1) * SampleBlockSize;
      var lo := (j - 1) * SampleBlockSize;
      var hi := Min(j * SampleBlockSize, |pcm|);
      assert bs[j - 1] == pcm[lo..hi];
      assert Concat(bs[..j]) == Concat(bs[..j - 1]) + bs[j - 1];
      assert pcm[..lo] + pcm[lo..hi] == pcm[..hi];
    }
  }

  /** The encoder's state and outputs after encoding `blocks` in order from `s0`. */
  function Run<S>(enc: Encoder<S>, s0: S, blocks: seq<seq<Sample>>): (S, seq<seq<Byte>>)
    decreases |blocks|
  {
    if |blocks| == 0 then (s0, [])
    else
      var (s, outs) := Run(enc, s0, blocks[..|blocks| - 1]);
      var (s', o) := enc.encodeBuffer(s, blocks[|blocks| - 1]);
      (s', outs + [o])
  }

  /** The buffers the driver keeps: those of positive length, in order. */
  function NonEmpty(bufs: seq<seq<Byte>>): seq<seq<Byte>>
    decreases |bufs|
  {
    if |bufs| == 0 then []
    else
      var last := bufs[|bufs| - 1];
      NonEmpty(bufs[..|bufs| - 1]) + (if |last| > 0 then [last] else [])
  }

  /** Dropping the empty buffers keeps every non-empty one and nothing else, and does
      not change the bytes they spell together. */
  lemma {:induction false} NonEmptyKeepsContent(bufs: seq<seq<Byte>>)
    ensures Concat(NonEmpty(bufs)) == Concat(bufs)
    ensures forall k :: 0 <= k < |NonEmpty(bufs)| ==> |NonEmpty(bufs)[k]| > 0
    ensures forall b :: b in NonEmpty(bufs) <==> b in bufs && |b| > 0
    ensures |NonEmpty(bufs)| <= |bufs|
    decreases |bufs|
  {
    NonEmptyMembers(bufs);
    if |bufs| > 0 {
      var init := bufs[..|bufs| - 1];
      var last := bufs[|bufs| - 1];
      NonEmptyKeepsContent(init);
      if |last| > 0 {
        ConcatAppend(NonEmpty(init), [last]);
        assert Concat([last]) == Concat([last][..0]) + last;
      } else {
        assert NonEmpty(bufs) == NonEmpty(init);
      }
    }
  }

  lemma {:induction false} NonEmptyMembers(bufs: seq<seq<Byte>>)
    ensures forall b :: b in NonEmpty(bufs) <==> b in bufs && |b| > 0
    decreases |bufs|
  {
    if |bufs| > 0 {
      var init := bufs[..|bufs| - 1];
      NonEmptyMembers(init);
      assert bufs == init + [bufs[|bufs| - 1]];
    }
  }

  /** The filter keeps order: filtering a concatenation is concatenating the filtered
      parts, and a single buffer survives exactly when it is non-empty. Together
      these pin `NonEmpty` down as the in-order list of the non-empty buffers. */
  lemma {:induction false} NonEmptyAppend(a: seq<seq<Byte>>, b: seq<seq<Byte>>)
    ensures NonEmpty(a + b) == NonEmpty(a) + NonEmpty(b)
    ensures |b| == 1 ==> NonEmpty(b) == (if |b[0]| > 0 then b else [])
    decreases |b|
  {
    if |b| == 0 {
      assert a + b == a;
    } else {
      var init := b[..|b| - 1];
      NonEmptyAppend(a, init);
      assert (a + b)[..|a + b| - 1] == a + init;
      if |b| == 1 {
        assert init == [];
      }
    }
  }

  /** The encoder calls for a list of blocks, one per block. */
  function EncodeCalls(blocks: seq<seq<Sample>>): seq<Call> {
    seq(|blocks|, k requires 0 <= k < |blocks| => EncodeCall(blocks[k]))
  }

  /** The bytes `createMp3Blob` produces for `pcm` with a given backend: the non-empty
      block outputs in order, then the flush output if non-empty. */
  function Mp3Parts<S>(enc: Encoder<S>, pcm: seq<Sample>, sampleRate: int): seq<seq<Byte>> {
    var (s, outs) := Run(enc, enc.init(Channels, sampleRate, Kbps), Blocks(pcm));
    NonEmpty(outs + [enc.flush(s).1])
  }

  /** One more block extends the run by one `encodeBuffer` step. */
  lemma RunStep<S>(enc: Encoder<S>, s0: S, bs: seq<seq<Sample>>, k: nat)
    requires k < |bs|
    ensures Run(enc, s0, bs[..k + 1]) ==
      var (s, outs) := Run(enc, s0, bs[..k]);
      var (s', o) := enc.encodeBuffer(s, bs[k]);
      (s', outs + [o])
  {
    assert bs[..k + 1][..k] == bs[..k];
  }

  lemma EncodeCallsStep(bs: seq<seq<Sample>>, k: nat)
    requires k < |bs|
    ensures EncodeCalls(bs[..k + 1]) == EncodeCalls(bs[..k]) + [EncodeCall(bs[k])]
  {
  }

  /** Filtering after one more buffer keeps it exactly when it is non-empty. */
  lemma NonEmptyStep(outs: seq<seq<Byte>>, o: seq<Byte>)
    ensures NonEmpty(outs + [o]) == NonEmpty(outs) + (if |o| > 0 then [o] else [])
  {
    assert (outs + [o])[..|outs|] == outs;
  }

  /** `createMp3Blob`: fails before touching any encoder when the backend is missing;
      otherwise makes one `encodeBuffer` call per block of the partition, in order,
      then exactly one `flush`, and keeps the non-empty outputs in call order. */
  method CreateMp3Blob<S>(pcm: seq<Sample>, sampleRate: int, lame: Option<Encoder<S>>)
    returns (r: Result<Blob, string>, calls: seq<Call>)
    ensures lame.None? <==> r.Failure?
    ensures lame.None? ==> r == Failure(LameMissing) && calls == []
    ensures lame.Some? ==> calls == EncodeCalls(Blocks(pcm)) + [FlushCall]
    ensures lame.Some? ==> r == Success(Blob(Mp3Parts(lame.value, pcm, sampleRate), Mp3Mime))
  {
    if lame.None? {
      return Failure(LameMissing), [];
    }
    var enc := lame.value;
    var s0 := enc.init(Channels, sampleRate, Kbps);
    var st := s0;
    var mp3Data: seq<seq<Byte>> := [];
    ghost var outs: seq<seq<Byte>> := [];
    ghost var bs := Blocks(pcm);
    calls := [];
    NumBlocksBounds(|pcm|);
    var i := 0;
    ghost var k := 0;
    while i < |pcm|
      invariant 0 <= k <= |bs| && i == k * SampleBlockSize
      invariant k < |bs| <==> i < |pcm|
      invariant calls == EncodeCalls(bs[..k])
      invariant (st, outs) == Run(enc, s0, bs[..k])
      invariant mp3Data == NonEmpty(outs)
    {
      var chunk := pcm[i..Min(i + SampleBlockSize, |pcm|)];
      assert chunk == bs[k];
      var (st', buf) := enc.encodeBuffer(st, chunk);
      RunStep(enc, s0, bs, k);
      EncodeCallsStep(bs, k);
      NonEmptyStep(outs, buf);
      if |buf| > 0 {
        mp3Data := mp3Data + [buf];
      }
      outs := outs + [buf];
      st := st';
      calls := calls + [EncodeCall(chunk)];
      i := i + SampleBlockSize;
      k := k + 1;
    }
    assert bs[..k] == bs;
    var (_, last) := enc.flush(st);
    calls := calls + [FlushCall];
    if |last| > 0 {
      mp3Data := mp3Data + [last];
    }
    NonEmptyStep(outs, last);
    assert (st, outs) == Run(enc, s0, Blocks(pcm));
    assert mp3Data == NonEmpty(outs + [last]);
    r := Success(Blob(mp3Data, Mp3Mime));
  }

  /** The blob's bytes are the block outputs in order followed by the flush output:
      discarding empty buffers loses nothing. */
  lemma Mp3Content<S>(enc: Encoder<S>, pcm: seq<Sample>, sampleRate: int)
    ensures
      var (s, outs) := Run(enc, enc.init(Channels, sampleRate, Kbps), Blocks(pcm));
      Blob(Mp3Parts(enc, pcm, sampleRate), Mp3Mime).Content() == Concat(outs) + enc.flush(s).1
  {
    var (s, outs) := Run(enc, enc.init(Channels, sampleRate, Kbps), Blocks(pcm));
    NonEmptyKeepsContent(outs + [enc.flush(s).1]);
    ConcatAppend(outs, [enc.flush(s).1]);
    assert Concat([enc.flush(s).1]) == Concat([enc.flush(s).1][..0]) + enc.flush(s).1;
  }

  /** The driver makes the least number m of encode calls with m * 1152 >= n, and
      then exactly one flush. */
  lemma CallCount(pcm: seq<Sample>)
    ensures var calls := EncodeCalls(Blocks(pcm)) + [FlushCall];
      var m := |calls| - 1;
      && calls[m] == FlushCall
      && (forall k :: 0 <= k < m ==> calls[k].EncodeCall?)
      && m * SampleBlockSize >= |pcm|
      && (m > 0 ==> (m - 1) * SampleBlockSize < |pcm|)
  {
    NumBlocksBounds(|pcm|);
  }
}
