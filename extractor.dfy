/** The demultiplexer as the player sees it: the interleaved samples of the
    selected tracks, in reading order, and a read cursor. */
module Extraction {

  /** One compressed access unit: the track it belongs to, its size in bytes
      and its presentation time in microseconds. */
  datatype Sample = Sample(track: nat, size: int, timeUs: int)

  datatype Extractor = Extractor(samples: seq<Sample>, cursor: nat) {

    /** The samples not yet read past. */
    function Remaining(): (r: seq<Sample>)
      ensures |r| <= |samples|
      ensures cursor >= |samples| <==> r == []
    {
      if cursor < |samples| then samples[cursor..] else []
    }

    /** sampleTrackIndex: the track of the current sample, -1 once exhausted. */
    function SampleTrackIndex(): (r: int)
      ensures r == -1 <==> Remaining() == []
      ensures r != -1 ==> r == Remaining()[0].track
    {
      if cursor < |samples| then samples[cursor].track else -1
    }

    /** readSampleData: the current sample's size, -1 once exhausted. */
    function ReadSampleData(): (r: int)
      ensures Remaining() == [] ==> r == -1
      ensures Remaining() != [] ==> r == Remaining()[0].size
    {
      if cursor < |samples| then samples[cursor].size else -1
    }

    /** sampleTime: the current sample's time, -1 once exhausted. */
    function SampleTime(): (r: int)
      ensures Remaining() == [] ==> r == -1
      ensures Remaining() != [] ==> r == Remaining()[0].timeUs
    {
      if cursor < |samples| then samples[cursor].timeUs else -1
    }

    /** advance: moves to the next sample; does nothing once exhausted. */
    function Advance(): (r: Extractor)
      ensures r.samples == samples
      ensures r.Remaining() == if Remaining() == [] then [] else Remaining()[1..]
    {
      if cursor < |samples| then Extractor(samples, cursor + 1) else this
    }
  }

  /** The extractor right after setDataSource: positioned on the first sample. */
  function Opened(samples: seq<Sample>): (e: Extractor)
    ensures e.Remaining() == samples
  {
    Extractor(samples, 0)
  }

  /** Advancing n times, by the definition of Advance. */
  function AdvanceTimes(e: Extractor, n: nat): Extractor
    decreases n
  {
    if n == 0 then e else AdvanceTimes(e.Advance(), n - 1)
  }

  /** n advances drop exactly the first n remaining samples; so after as many
      advances as there are samples, sampleTrackIndex reports -1. */
  lemma {:induction false} AdvanceTimesDrops(e: Extractor, n: nat)
    ensures AdvanceTimes(e, n).Remaining() ==
      if n <= |e.Remaining()| then e.Remaining()[n..] else []
    ensures n >= |e.Remaining()| ==> AdvanceTimes(e, n).SampleTrackIndex() == -1
    decreases n
  {
    if n > 0 {
      AdvanceTimesDrops(e.Advance(), n - 1);
      if n <= |e.Remaining()| {
        assert e.Remaining()[1..][n - 1..] == e.Remaining()[n..];
      }
    }
  }
}
