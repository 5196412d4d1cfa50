/**
 * Stream selection of `_get_media_urls`: from the DASH manifest of the
 * play-URL reply, the highest-bandwidth video stream of exactly the requested
 * quality and the highest-bandwidth audio stream of any tier.
 */
module Streams {
  import opened Wrappers

  /** One entry of `dash["video"]` or `dash["audio"]`. */
  datatype Candidate = Candidate(id: int, bandwidth: int, baseUrl: string)

  datatype Dash = Dash(video: seq<Candidate>, audio: seq<Candidate>)

  /**
   * What the play-URL request produced. `Raised` is every way the `try`
   * block can fail before a manifest is in hand: a transport or HTTP error,
   * a body that is not JSON, or a missing key among those the code reads —
   * `code`; with code 0, `data`, `dash`, `video`, `audio` and every video
   * stream's `id`; the `bandwidth` of each video stream of the requested
   * tier and of each audio stream; the `base_url` of the two chosen streams.
   * A key missing anywhere else is never read: such a reply is still a
   * `Reply`, with any placeholder in the field the model gives that key.
   */
  datatype PlayUrlReply = Raised | Reply(code: int, dash: Dash)

  /** `cs[i]` is the element Python's `max(cs, key=bandwidth)` returns: maximal, and first among equals. */
  ghost predicate IsFirstMax(cs: seq<Candidate>, i: int) {
    && 0 <= i < |cs|
    && (forall j :: 0 <= j < |cs| ==> cs[j].bandwidth <= cs[i].bandwidth)
    && (forall j :: 0 <= j < i ==> cs[j].bandwidth < cs[i].bandwidth)
  }

  /** At most one index is the first maximum. */
  lemma FirstMaxUnique(cs: seq<Candidate>, i: int, j: int)
    requires IsFirstMax(cs, i) && IsFirstMax(cs, j)
    ensures i == j
  {
    assert cs[i].bandwidth == cs[j].bandwidth;
  }

  /**
   * The scan `max` performs: `best` is the first maximum of `cs[..k]`, and the
   * running maximum is replaced only by a strictly larger bandwidth.
   */
  function ScanMax(cs: seq<Candidate>, best: nat, k: nat): (i: nat)
    requires best < k <= |cs|
    requires IsFirstMax(cs[..k], best)
    ensures IsFirstMax(cs, i)
    decreases |cs| - k
  {
    if k == |cs| then
      assert cs[..k] == cs;
      best
    else
      var next := if cs[k].bandwidth > cs[best].bandwidth then k else best;
      assert forall j :: 0 <= j < k ==> cs[..k + 1][j] == cs[..k][j];
      ScanMax(cs, next, k + 1)
  }

  /** `max(cs, key=lambda x: x["bandwidth"])`, with `None` for the `ValueError` on an empty `cs`. */
  function MaxBandwidth(cs: seq<Candidate>): (r: Option<Candidate>)
    ensures r.None? <==> cs == []
    ensures r.Some? ==> exists i :: IsFirstMax(cs, i) && cs[i] == r.value
  {
    if cs == [] then None
    else
      assert cs[..1] == [cs[0]];
      Some(cs[ScanMax(cs, 0, 1)])
  }

  /** The generator `(v for v in cs if v["id"] == quality)`, in order. */
  function WithId(cs: seq<Candidate>, quality: int): (r: seq<Candidate>)
    ensures |r| <= |cs|
  {
    if cs == [] then []
    else (if cs[0].id == quality then [cs[0]] else []) + WithId(cs[1..], quality)
  }

  /** The filter keeps exactly the candidates of the requested tier. */
  lemma {:induction false} WithIdMembers(cs: seq<Candidate>, quality: int)
    ensures forall c :: c in WithId(cs, quality) <==> c in cs && c.id == quality
  {
    if cs != [] {
      WithIdMembers(cs[1..], quality);
      assert cs == [cs[0]] + cs[1..];
    }
  }

  /** Candidates of other tiers play no part in the video choice. */
  lemma {:induction false} WithIdIgnoresOthers(cs: seq<Candidate>, others: seq<Candidate>, quality: int)
    requires forall c :: c in others ==> c.id != quality
    ensures WithId(cs + others, quality) == WithId(cs, quality)
  {
    if cs == [] {
      assert cs + others == others;
      NoneWithId(others, quality);
    } else {
      assert (cs + others)[1..] == cs[1..] + others;
      WithIdIgnoresOthers(cs[1..], others, quality);
    }
  }

  lemma NoneWithId(cs: seq<Candidate>, quality: int)
    requires forall c :: c in cs ==> c.id != quality
    ensures WithId(cs, quality) == []
  {
    WithIdMembers(cs, quality);
    if WithId(cs, quality) != [] {
      assert WithId(cs, quality)[0] in WithId(cs, quality);
    }
  }

  /** True when the selected video stream is one this quality can choose. */
  ghost predicate BestOfTier(video: seq<Candidate>, quality: int, url: string) {
    exists v :: v in video && v.id == quality && v.baseUrl == url
      && forall w :: w in video && w.id == quality ==> w.bandwidth <= v.bandwidth
  }

  ghost predicate BestAudio(audio: seq<Candidate>, url: string) {
    exists a :: a in audio && a.baseUrl == url
      && forall b :: b in audio ==> b.bandwidth <= a.bandwidth
  }

  /**
   * `_get_media_urls(bvid, cid, quality)`: the pair `(video_url, audio_url)`,
   * or `None` for the source's `(None, None)`.
   */
  function GetMediaUrls(reply: PlayUrlReply, quality: int): Option<(string, string)> {
    match reply
    case Raised => None
    case Reply(code, dash) =>
      if code != 0 then None
      else
        match (MaxBandwidth(WithId(dash.video, quality)), MaxBandwidth(dash.audio))
        case (Some(v), Some(a)) => Some((v.baseUrl, a.baseUrl))
        case _ => None
  }

  /**
   * The selection succeeds exactly when the reply carries code 0, some video
   * stream of the requested tier and some audio stream; the video URL is then
   * a highest-bandwidth stream of that tier and the audio URL a
   * highest-bandwidth audio stream.
   */
  lemma GetMediaUrlsSpec(reply: PlayUrlReply, quality: int)
    ensures GetMediaUrls(reply, quality).Some? <==>
              reply.Reply? && reply.code == 0
              && (exists c :: c in reply.dash.video && c.id == quality)
              && reply.dash.audio != []
    ensures GetMediaUrls(reply, quality).Some? ==>
              BestOfTier(reply.dash.video, quality, GetMediaUrls(reply, quality).value.0)
              && BestAudio(reply.dash.audio, GetMediaUrls(reply, quality).value.1)
  {
    if reply.Reply? && reply.code == 0 {
      var dash := reply.dash;
      var tier := WithId(dash.video, quality);
      WithIdMembers(dash.video, quality);
      assert tier == [] <==> !exists c :: c in dash.video && c.id == quality by {
        if tier != [] { assert tier[0] in tier; }
      }
      match (MaxBandwidth(tier), MaxBandwidth(dash.audio))
      case (Some(v), Some(a)) =>
        assert v in tier;
        assert forall w :: w in dash.video && w.id == quality ==> w.bandwidth <= v.bandwidth by {
          forall w | w in dash.video && w.id == quality ensures w.bandwidth <= v.bandwidth {
            var k :| 0 <= k < |tier| && tier[k] == w;
          }
        }
        assert forall b :: b in dash.audio ==> b.bandwidth <= a.bandwidth;
      case _ =>
    }
  }

  /** The first maximum is the one chosen: among equal bandwidths the earlier stream wins. */
  lemma PicksFirstMax(cs: seq<Candidate>, i: int)
    requires IsFirstMax(cs, i)
    ensures MaxBandwidth(cs) == Some(cs[i])
  {
    var j :| IsFirstMax(cs, j) && cs[j] == MaxBandwidth(cs).value;
    FirstMaxUnique(cs, i, j);
  }

  /**
   * A worked case of a true tie: two rank-80 encodings of equal bandwidth,
   * after a faster rank-64 one, select the earlier of the two.
   */
  lemma VideoTieBreakExample()
    ensures GetMediaUrls(Reply(0, Dash(TieVideo(), ExampleAudio())), 80) == Some(("p", "y"))
  {
    var video := TieVideo();
    assert WithId(video[3..], 80) == [];
    assert WithId(video[2..], 80) == [video[2]];
    assert WithId(video[1..], 80) == [video[1], video[2]];
    TieChoice(WithId(video, 80));
    AudioChoice(ExampleAudio());
  }

  lemma TieChoice(tier: seq<Candidate>)
    requires tier == [Candidate(80, 700000, "p"), Candidate(80, 700000, "q")]
    ensures MaxBandwidth(tier) == Some(Candidate(80, 700000, "p"))
  {
    assert IsFirstMax(tier, 0);
    PicksFirstMax(tier, 0);
  }

  function TieVideo(): seq<Candidate> {
    [Candidate(64, 990000, "b"), Candidate(80, 700000, "p"), Candidate(80, 700000, "q")]
  }

  /** A worked case: three rank-80 encodings at 500k, 900k and 700k select the 900k one. */
  lemma VideoSelectionExample()
    ensures GetMediaUrls(Reply(0, Dash(ExampleVideo(), ExampleAudio())), 80) == Some(("c", "y"))
  {
    ExampleTier();
    TierChoice(WithId(ExampleVideo(), 80));
    AudioChoice(ExampleAudio());
  }

  lemma ExampleTier()
    ensures WithId(ExampleVideo(), 80)
            == [Candidate(80, 500000, "a"), Candidate(80, 900000, "c"), Candidate(80, 700000, "d")]
  {
    var video := ExampleVideo();
    assert WithId(video[4..], 80) == [];
    assert WithId(video[3..], 80) == [video[3]];
    assert WithId(video[2..], 80) == [video[2], video[3]];
    assert WithId(video[1..], 80) == [video[2], video[3]];
  }

  lemma TierChoice(tier: seq<Candidate>)
    requires tier == [Candidate(80, 500000, "a"), Candidate(80, 900000, "c"), Candidate(80, 700000, "d")]
    ensures MaxBandwidth(tier) == Some(Candidate(80, 900000, "c"))
  {
    assert IsFirstMax(tier, 1);
    PicksFirstMax(tier, 1);
  }

  lemma AudioChoice(audio: seq<Candidate>)
    requires audio == ExampleAudio()
    ensures MaxBandwidth(audio) == Some(Candidate(30280, 200000, "y"))
  {
    assert IsFirstMax(audio, 1);
    PicksFirstMax(audio, 1);
  }

  function ExampleVideo(): seq<Candidate> {
    [Candidate(80, 500000, "a"), Candidate(64, 990000, "b"),
     Candidate(80, 900000, "c"), Candidate(80, 700000, "d")]
  }

  function ExampleAudio(): seq<Candidate> {
    [Candidate(30216, 100000, "x"), Candidate(30280, 200000, "y")]
  }

  /** With no code-0 reply, or no stream of the requested tier, nothing is selected. */
  lemma NoTierNoUrls(dash: Dash, code: int, quality: int)
    requires code != 0 || forall c :: c in dash.video ==> c.id != quality
    ensures GetMediaUrls(Reply(code, dash), quality) == None
  {
    GetMediaUrlsSpec(Reply(code, dash), quality);
  }
}
