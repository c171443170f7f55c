/** `updateDownloadLink`: the speech view's download container, built from the raw
    speech bytes at the fixed 24 kHz rate of the speech model's output, with any
    encoding failure turned into one user-facing message. */
module SpeechExport {
  import opened Wrappers
  import opened Bytes
  import Wav
  import Mp3

  /** Both download formats are written at 24000 Hz. */
  const DownloadSampleRate: int := 24000
  const EncodeFailed: string := "Failed to encode audio. Ensure libraries are loaded."

  datatype Format = WavFormat | Mp3Format

  /** The blob offered for download. `bytes` are the raw PCM bytes; `samples` is
      their 16-bit view, handed to the MP3 encoder. */
  method DownloadBlob<S>(fmt: Format, bytes: seq<Byte>, samples: seq<Sample>, lame: Option<Mp3.Encoder<S>>)
    returns (r: Result<Blob, string>)
    ensures fmt.WavFormat? ==> r == Success(Blob([Wav.WavBytes(bytes, DownloadSampleRate)], Wav.WavMime))
    ensures fmt.WavFormat? ==> |r.value.parts| == 1 && |r.value.parts[0]| == Wav.HeaderSize + |bytes|
    ensures fmt.WavFormat? ==> Wav.ReadLe32(r.value.parts[0], 24) == 24000
    ensures fmt.WavFormat? ==> Wav.ReadLe32(r.value.parts[0], 28) == 48000
    ensures fmt.Mp3Format? && lame.None? ==> r == Failure(EncodeFailed)
    ensures fmt.Mp3Format? && lame.Some? ==>
      r == Success(Blob(Mp3.Mp3Parts(lame.value, samples, DownloadSampleRate), Mp3.Mp3Mime))
  {
    if fmt.WavFormat? {
      Wav.FmtFields(bytes, DownloadSampleRate);
      r := Success(Blob([Wav.WavBytes(bytes, DownloadSampleRate)], Wav.WavMime));
    } else {
      var res, _ := Mp3.CreateMp3Blob(samples, DownloadSampleRate, lame);
      if res.Failure? {
        r := Failure(EncodeFailed);
      } else {
        r := res;
      }
    }
  }
}
