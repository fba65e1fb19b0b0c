/** What `init` makes of the container's track list: which tracks get a
    decoder, which get their bit in the active-track mask and which index
    slot each kind ends up with. */
module TrackSelection {
  import opened MediaFormats
  import opened Codecs
  import opened TrackMask

  /** The platform's answer when the player sets a decoder up for a track:
      createDecoderByType throws, one of the later steps (surface, configure,
      start, selectTrack) throws, or every step succeeds. */
  datatype Setup = SetupOk | CreateFails | ConfigureFails

  /** A track as getTrackFormat describes it, with the setup outcome. */
  datatype Track = Track(format: Format, setup: Setup)

  datatype Kind = VideoKind | AudioKind | OtherKind

  /** Tracks are classified by MIME prefix, video first. */
  function Classify(mime: string): (k: Kind)
    ensures k == VideoKind <==> "video/" <= mime
    ensures k == AudioKind <==> "audio/" <= mime
  {
    if "video/" <= mime then
      assert mime[0] == 'v';
      VideoKind
    else if "audio/" <= mime then AudioKind
    else OtherKind
  }

  function Mime(t: Track): Option<string>
  {
    GetString(t.format, KEY_MIME)
  }

  /** Whether init throws on this track: a missing MIME type (a null string
      whose startsWith throws), or a failing setup of a recognised track. A
      track that goes through is selected exactly when it is video or audio. */
  predicate Fails(t: Track): (r: bool)
    ensures !r ==> Mime(t).Some? && (Selected(t) <==> Classify(Mime(t).value) != OtherKind)
  {
    Mime(t).None? || (Classify(Mime(t).value) != OtherKind && t.setup != SetupOk)
  }

  /** The two things init does to a track of a kind: create its decoder (the
      decoder slot is overwritten), and select it (index slot and mask bit). */
  datatype Step = Creation(kind: Kind) | Selection(kind: Kind)

  predicate Took(t: Track, s: Step)
  {
    && Mime(t).Some?
    && s.kind != OtherKind
    && Classify(Mime(t).value) == s.kind
    && (if s.Creation? then t.setup != CreateFails else t.setup == SetupOk)
  }

  predicate Selected(t: Track)
  {
    Took(t, Selection(VideoKind)) || Took(t, Selection(AudioKind))
  }

  /** The number of tracks init gets through without an exception. */
  function FirstFailure(ts: seq<Track>): (n: nat)
    ensures n <= |ts|
  {
    if |ts| == 0 then 0
    else if Fails(ts[0]) then 0
    else 1 + FirstFailure(ts[1..])
  }

  /** Every track before the first failure goes through, and the track at it
      fails. */
  lemma {:induction false} FirstFailureIsFirst(ts: seq<Track>)
    ensures forall i :: 0 <= i < FirstFailure(ts) ==> !Fails(ts[i])
    ensures FirstFailure(ts) < |ts| ==> Fails(ts[FirstFailure(ts)])
  {
    if |ts| > 0 && !Fails(ts[0]) {
      FirstFailureIsFirst(ts[1..]);
      forall i | 0 < i < FirstFailure(ts) ensures !Fails(ts[i]) {
        assert ts[i] == ts[1..][i - 1];
      }
    }
  }

  /** A failing track at a position init reaches is the first failure. */
  lemma FailureIsFirst(ts: seq<Track>, i: nat)
    requires i < |ts| && i <= FirstFailure(ts) && Fails(ts[i])
    ensures FirstFailure(ts) == i && Reached(ts) == i + 1
  {
    FirstFailureIsFirst(ts);
  }

  /** A track that goes through at a position init reaches is not the first
      failure. */
  lemma PassesBeforeFailure(ts: seq<Track>, i: nat)
    requires i < |ts| && i <= FirstFailure(ts) && !Fails(ts[i])
    ensures i < FirstFailure(ts)
  {
    FirstFailureIsFirst(ts);
  }

  /** The number of tracks init looks at: up to and including the failing one. */
  function Reached(ts: seq<Track>): (n: nat)
    ensures n <= |ts|
  {
    if FirstFailure(ts) < |ts| then FirstFailure(ts) + 1 else |ts|
  }

  /** The OR of `1 shl i` over the selected tracks i among the first n. */
  function SelectedMask(ts: seq<Track>, n: nat): Mask
    requires n <= |ts|
  {
    if n == 0 then {} else SelectedMask(ts, n - 1) + SelectionBit(ts[n - 1], n - 1)
  }

  /** The bit track i contributes to the mask. */
  function SelectionBit(t: Track, i: int): Mask
  {
    if Selected(t) then {Bit(i)} else {}
  }

  /** Bit j of the mask is set exactly when a selected track's index agrees
      with j modulo 32. */
  lemma {:induction false} SelectedMaskBits(ts: seq<Track>, n: nat, j: int)
    requires n <= |ts|
    ensures Has(SelectedMask(ts, n), j) <==> exists i :: 0 <= i < n && i % 32 == j % 32 && Selected(ts[i])
  {
    if n > 0 {
      SelectedMaskBits(ts, n - 1, j);
      if Selected(ts[n - 1]) {
        assert SelectedMask(ts, n) == With(SelectedMask(ts, n - 1), n - 1);
        WithHas(SelectedMask(ts, n - 1), n - 1, j);
      }
    }
  }

  /** With at most 32 tracks the mask has one bit per selected track and no
      other bit. */
  lemma MaskIsSelection(ts: seq<Track>, n: nat, j: nat)
    requires n <= |ts| && n <= 32 && j < 32
    ensures Has(SelectedMask(ts, n), j) <==> j < n && Selected(ts[j])
  {
    SelectedMaskBits(ts, n, j);
    var has := Has(SelectedMask(ts, n), j);
    assert has <==> exists i :: 0 <= i < n && i % 32 == j % 32 && Selected(ts[i]);
    assert forall i :: 0 <= i < 32 ==> i % 32 == i;
    assert j % 32 == j;
  }

  /** The last index below n of a track on which init took step s, or d if
      none. */
  function LastIndex(ts: seq<Track>, n: nat, s: Step, d: int): (r: int)
    requires n <= |ts|
    ensures r == d || (0 <= r < n && Took(ts[r], s))
  {
    if n == 0 then d
    else if Took(ts[n - 1], s) then n - 1
    else LastIndex(ts, n - 1, s, d)
  }

  /** LastIndex is d when no track took step s, and otherwise the position of
      a track that took it with none after it doing so. */
  lemma {:induction false} LastIndexIsLast(ts: seq<Track>, n: nat, s: Step, d: int)
    requires n <= |ts|
    ensures var r := LastIndex(ts, n, s, d);
      || (r == d && forall i :: 0 <= i < n ==> !Took(ts[i], s))
      || (0 <= r < n && Took(ts[r], s) && forall i :: r < i < n ==> !Took(ts[i], s))
  {
    if n > 0 && !Took(ts[n - 1], s) {
      LastIndexIsLast(ts, n - 1, s, d);
    }
  }

  /** The decoder slot of a kind after init has looked at the first n tracks:
      the decoder of the last track of that kind whose decoder was created,
      or d. */
  function LastDecoder(ts: seq<Track>, n: nat, k: Kind, d: Option<Codec>): Option<Codec>
    requires n <= |ts|
  {
    var i := LastIndex(ts, n, Creation(k), -1);
    if i < 0 then d else Some(Codec(i, Mime(ts[i]).value))
  }

  /** LastDecoder is d when no decoder of kind k was created, and otherwise
      the decoder made for the last track of kind k whose creation succeeded. */
  lemma LastDecoderIsLast(ts: seq<Track>, n: nat, k: Kind, d: Option<Codec>)
    requires n <= |ts|
    ensures var r := LastDecoder(ts, n, k, d);
      || (r == d && forall i :: 0 <= i < n ==> !Took(ts[i], Creation(k)))
      || (exists i :: 0 <= i < n && Took(ts[i], Creation(k)) && r == Some(Codec(i, Mime(ts[i]).value))
            && forall j :: i < j < n ==> !Took(ts[j], Creation(k)))
  {
    LastIndexIsLast(ts, n, Creation(k), -1);
  }

  /** What init writes, in the player's fields: the two decoder slots, the
      two index slots and the active-track mask. */
  datatype Slots = Slots(
    videoDec: Option<Codec>,
    videoTrackIdx: int,
    audioDec: Option<Codec>,
    audioTrackIdx: int,
    activeTracks: Mask)

  /** What init does with track i, in the order it does it: a track without
      a MIME type or of another kind changes nothing; a video or audio track
      whose decoder is created takes its kind's decoder slot at once, and once
      the rest of its set-up succeeds also the index slot and its mask bit. */
  function SetUp(st: Slots, t: Track, i: nat): (r: Slots)
    ensures st.activeTracks <= r.activeTracks
    ensures Fails(t) ==>
      r.videoTrackIdx == st.videoTrackIdx && r.audioTrackIdx == st.audioTrackIdx && r.activeTracks == st.activeTracks
  {
    match Mime(t)
    case None => st
    case Some(mime) =>
      match Classify(mime)
      case OtherKind => st
      case VideoKind =>
        if t.setup == CreateFails then st
        else if t.setup == ConfigureFails then st.(videoDec := Some(Codec(i, mime)))
        else st.(videoDec := Some(Codec(i, mime)), videoTrackIdx := i, activeTracks := With(st.activeTracks, i))
      case AudioKind =>
        if t.setup == CreateFails then st
        else if t.setup == ConfigureFails then st.(audioDec := Some(Codec(i, mime)))
        else st.(audioDec := Some(Codec(i, mime)), audioTrackIdx := i, activeTracks := With(st.activeTracks, i))
  }

  /** SetUp field by field: a decoder slot changes exactly when a decoder of
      its kind is created, an index slot exactly when a track of its kind is
      selected. */
  lemma SetUpFields(st: Slots, t: Track, i: nat)
    ensures var r := SetUp(st, t, i);
      && r.videoDec == (if Took(t, Creation(VideoKind)) then Some(Codec(i, Mime(t).value)) else st.videoDec)
      && r.audioDec == (if Took(t, Creation(AudioKind)) then Some(Codec(i, Mime(t).value)) else st.audioDec)
      && r.videoTrackIdx == (if Took(t, Selection(VideoKind)) then i else st.videoTrackIdx)
      && r.audioTrackIdx == (if Took(t, Selection(AudioKind)) then i else st.audioTrackIdx)
  {
  }

  /** The mask gains exactly the bit of a selected track. */
  lemma SetUpMask(st: Slots, t: Track, i: nat)
    ensures SetUp(st, t, i).activeTracks == st.activeTracks + SelectionBit(t, i)
  {
  }

  /** The slots after init has looked at the first n tracks, from st0. */
  function Walk(ts: seq<Track>, n: nat, st0: Slots): (r: Slots)
    requires n <= |ts|
    ensures st0.activeTracks <= r.activeTracks
  {
    if n == 0 then st0 else SetUp(Walk(ts, n - 1, st0), ts[n - 1], n - 1)
  }

  /** The walk ORs in exactly the bits of the selected tracks. */
  lemma {:induction false} WalkMask(ts: seq<Track>, n: nat, st0: Slots)
    requires n <= |ts|
    ensures Walk(ts, n, st0).activeTracks == st0.activeTracks + SelectedMask(ts, n)
  {
    if n > 0 {
      WalkMask(ts, n - 1, st0);
      SetUpMask(Walk(ts, n - 1, st0), ts[n - 1], n - 1);
    }
  }

  /** Each index slot ends up holding the last track of its kind that was
      selected. */
  lemma {:induction false} WalkIndices(ts: seq<Track>, n: nat, st0: Slots)
    requires n <= |ts|
    ensures Walk(ts, n, st0).videoTrackIdx == LastIndex(ts, n, Selection(VideoKind), st0.videoTrackIdx)
    ensures Walk(ts, n, st0).audioTrackIdx == LastIndex(ts, n, Selection(AudioKind), st0.audioTrackIdx)
  {
    if n > 0 {
      WalkIndices(ts, n - 1, st0);
      SetUpFields(Walk(ts, n - 1, st0), ts[n - 1], n - 1);
    }
  }

  /** Each decoder slot ends up holding the decoder of the last track of its
      kind whose decoder was created. */
  lemma {:induction false} WalkDecoders(ts: seq<Track>, n: nat, st0: Slots)
    requires n <= |ts|
    ensures Walk(ts, n, st0).videoDec == LastDecoder(ts, n, VideoKind, st0.videoDec)
    ensures Walk(ts, n, st0).audioDec == LastDecoder(ts, n, AudioKind, st0.audioDec)
  {
    if n > 0 {
      WalkDecoders(ts, n - 1, st0);
      SetUpFields(Walk(ts, n - 1, st0), ts[n - 1], n - 1);
    }
  }

  /** When init gets through every track, exactly the tracks with a video or
      audio MIME type are selected; the others add nothing. */
  lemma CompleteInitSelectsRecognised(ts: seq<Track>, i: nat)
    requires FirstFailure(ts) == |ts| && i < |ts|
    ensures Selected(ts[i]) <==> Mime(ts[i]).Some? && Classify(Mime(ts[i]).value) != OtherKind
  {
    FirstFailureIsFirst(ts);
    assert !Fails(ts[i]);
  }

  /** The slots of a player that has not run init. */
  function Fresh(): Slots
  {
    Slots(None, -2, None, -2, {})
  }

  /** An init that gets through all of at most 32 tracks, on a fresh player,
      leaves the bit of each video or audio track set and no other bit; an
      index slot that names a track names one whose bit is set; and the two
      index slots, when both name a track, name different bits. */
  lemma CompleteInit(ts: seq<Track>, j: nat)
    requires FirstFailure(ts) == |ts| && |ts| <= 32 && j < 32
    ensures var st := Walk(ts, |ts|, Fresh());
      && (Has(st.activeTracks, j) <==> j < |ts| && Mime(ts[j]).Some? && Classify(Mime(ts[j]).value) != OtherKind)
      && (st.videoTrackIdx != -2 ==> Has(st.activeTracks, st.videoTrackIdx))
      && (st.audioTrackIdx != -2 ==> Has(st.activeTracks, st.audioTrackIdx))
      && (st.videoTrackIdx != -2 && st.audioTrackIdx != -2 ==> Bit(st.videoTrackIdx) != Bit(st.audioTrackIdx))
  {
    var n := |ts|;
    var st := Walk(ts, n, Fresh());
    WalkMask(ts, n, Fresh());
    WalkIndices(ts, n, Fresh());
    MaskIsSelection(ts, n, j);
    if j < n {
      CompleteInitSelectsRecognised(ts, j);
    }
    LastIndexIsLast(ts, n, Selection(VideoKind), -2);
    LastIndexIsLast(ts, n, Selection(AudioKind), -2);
    IndexSlotsDiffer(ts, n, -2);
    if st.videoTrackIdx != -2 {
      MaskIsSelection(ts, n, st.videoTrackIdx);
    }
    if st.audioTrackIdx != -2 {
      MaskIsSelection(ts, n, st.audioTrackIdx);
    }
  }

  /** The video and audio index slots never name the same track. */
  lemma IndexSlotsDiffer(ts: seq<Track>, n: nat, d: int)
    requires n <= |ts|
    ensures var v := LastIndex(ts, n, Selection(VideoKind), d);
      var a := LastIndex(ts, n, Selection(AudioKind), d);
      v == a ==> v == d
  {
  }
}
