/** Speaker labelling of the captured segments (performDiarization) and the
    left-to-right smoothing pass that follows it (smoothSpeakerTransitions). */
module Diarization {
  import opened Numbers
  import opened Transcript
  import opened Features
  import opened Clustering

  // ------------------------------------------------------------ smoothing

  /** Two segment lists agree in everything but the speaker labels. */
  predicate SameExceptLabels(a: seq<Segment>, b: seq<Segment>) {
    && |a| == |b|
    && forall k :: 0 <= k < |a| ==>
      && a[k].text == b[k].text && a[k].startTime == b[k].startTime
      && a[k].endTime == b[k].endTime && a[k].confidence == b[k].confidence
  }

  /** A label different from two equal neighbours, on a text of fewer than
      three space-separated pieces. */
  predicate IsShortFlip(prev: string, curr: string, next: string, text: string) {
    prev == next && curr != prev && |Split(text, ' ')| < 3
  }

  /** The loop body at position `i`, reading the list as the earlier
      iterations left it. */
  function SmoothStep(r: seq<Segment>, i: nat): (out: seq<Segment>)
    requires 1 <= i < |r| - 1
    ensures SameExceptLabels(out, r)
    ensures forall k :: 0 <= k < |r| && k != i ==> out[k] == r[k]
  {
    if IsShortFlip(r[i - 1].speakerLabel, r[i].speakerLabel, r[i + 1].speakerLabel, r[i].text)
    then r[i := r[i].(speakerLabel := r[i - 1].speakerLabel)]
    else r
  }

  /** The list once positions 1 .. i-1 have been visited. */
  function SmoothedUpTo(s: seq<Segment>, i: nat): (r: seq<Segment>)
    requires 1 <= i <= |s| - 1
    ensures SameExceptLabels(r, s)
    ensures forall k :: i <= k < |s| ==> r[k] == s[k]
    ensures r[0] == s[0]
    decreases i
  {
    if i == 1 then s else SmoothStep(SmoothedUpTo(s, i - 1), i - 1)
  }

  function Smoothed(s: seq<Segment>): (r: seq<Segment>)
    ensures SameExceptLabels(r, s)
    ensures |s| < 3 ==> r == s
    ensures |s| > 0 ==> r[0] == s[0] && r[|s| - 1] == s[|s| - 1]
  {
    if |s| < 3 then s else SmoothedUpTo(s, |s| - 1)
  }

  /** Positions before `m` are final once the scan has passed them. */
  lemma {:induction false} SmoothedPrefixFrozen(s: seq<Segment>, m: nat, j: nat)
    requires 1 <= m <= j <= |s| - 1
    ensures forall k :: 0 <= k < m ==> SmoothedUpTo(s, j)[k] == SmoothedUpTo(s, m)[k]
    decreases j
  {
    if j > m {
      SmoothedPrefixFrozen(s, m, j - 1);
    }
  }

  /** Left-to-right characterisation of the result: position i takes its
      already-smoothed left neighbour's label exactly when that label, the
      original label at i and the original label at i+1 form a short flip. */
  lemma SmoothedAt(s: seq<Segment>, i: nat)
    requires |s| >= 3 && 1 <= i < |s| - 1
    ensures Smoothed(s)[i].speakerLabel ==
      if IsShortFlip(Smoothed(s)[i - 1].speakerLabel, s[i].speakerLabel, s[i + 1].speakerLabel, s[i].text)
      then Smoothed(s)[i - 1].speakerLabel
      else s[i].speakerLabel
  {
    SmoothedPrefixFrozen(s, i + 1, |s| - 1);
    SmoothedPrefixFrozen(s, i, i + 1);
  }

  predicate NoShortFlip(r: seq<Segment>) {
    forall i :: 1 <= i < |r| - 1 ==>
      !IsShortFlip(r[i - 1].speakerLabel, r[i].speakerLabel, r[i + 1].speakerLabel, r[i].text)
  }

  /** No short flip survives the pass. */
  lemma NoShortFlipRemains(s: seq<Segment>)
    ensures NoShortFlip(Smoothed(s))
  {
    var r := Smoothed(s);
    if |s| >= 3 {
      forall i | 1 <= i < |r| - 1
        ensures !IsShortFlip(r[i - 1].speakerLabel, r[i].speakerLabel, r[i + 1].speakerLabel, r[i].text)
      {
        SmoothedAt(s, i);
        if i + 1 < |s| - 1 {
          SmoothedAt(s, i + 1);
        }
      }
    }
  }

  /** A list with no short flip goes through the pass unchanged. */
  lemma {:induction false} SmoothedUpToOfStable(s: seq<Segment>, i: nat)
    requires 1 <= i <= |s| - 1 && NoShortFlip(s)
    ensures SmoothedUpTo(s, i) == s
    decreases i
  {
    if i > 1 {
      SmoothedUpToOfStable(s, i - 1);
    }
  }

  /** Smoothing twice is smoothing once. */
  lemma SmoothedIdempotent(s: seq<Segment>)
    ensures Smoothed(Smoothed(s)) == Smoothed(s)
  {
    var r := Smoothed(s);
    if |r| >= 3 {
      NoShortFlipRemains(s);
      SmoothedUpToOfStable(r, |r| - 1);
    }
  }

  predicate LabelsIn(s: seq<Segment>, labels: set<string>) {
    forall k :: 0 <= k < |s| ==> s[k].speakerLabel in labels
  }

  lemma {:induction false} SmoothedUpToKeepsLabels(s: seq<Segment>, i: nat, labels: set<string>)
    requires 1 <= i <= |s| - 1 && LabelsIn(s, labels)
    ensures LabelsIn(SmoothedUpTo(s, i), labels)
    decreases i
  {
    if i > 1 {
      SmoothedUpToKeepsLabels(s, i - 1, labels);
    }
  }

  /** The pass only copies labels that are already present. */
  lemma SmoothedKeepsLabels(s: seq<Segment>, labels: set<string>)
    requires LabelsIn(s, labels)
    ensures LabelsIn(Smoothed(s), labels)
  {
    if |s| >= 3 {
      SmoothedUpToKeepsLabels(s, |s| - 1, labels);
    }
  }

  /** The pass over a copy of the list, rewriting labels in place. */
  method SmoothSpeakerTransitions(segments: seq<Segment>) returns (smoothed: seq<Segment>)
    ensures smoothed == Smoothed(segments)
  {
    if |segments| < 3 {
      return segments;
    }
    var a := new Segment[|segments|](k requires 0 <= k < |segments| => segments[k]);
    assert a[..] == segments;
    SmoothPass(a);
    smoothed := a[..];
  }

  /** The loop from index 1 to the second-to-last, rewriting `a` in place. */
  method SmoothPass(a: array<Segment>)
    requires a.Length >= 3
    modifies a
    ensures a[..] == SmoothedUpTo(old(a[..]), a.Length - 1)
  {
    ghost var s := a[..];
    var i := 1;
    while i < a.Length - 1
      invariant 1 <= i <= a.Length - 1
      invariant a[..] == SmoothedUpTo(s, i)
    {
      SmoothAt(a, i);
      i := i + 1;
    }
  }

  /** One iteration of the pass: a short flip at `i` takes the label of its
      left neighbour. */
  method SmoothAt(a: array<Segment>, i: int)
    requires 1 <= i < a.Length - 1
    modifies a
    ensures a[..] == SmoothStep(old(a[..]), i)
  {
    var prev := a[i - 1].speakerLabel;
    var curr := a[i].speakerLabel;
    var next := a[i + 1].speakerLabel;
    if prev == next && curr != prev {
      if |Split(a[i].text, ' ')| < 3 {
        a[i] := a[i].(speakerLabel := prev);
      }
    }
  }

  // ------------------------------------------------------------ labelling

  /** Samples `floor(start * rate)` up to `floor(end * rate)` of channel 0. */
  function Window(samples: seq<real>, sampleRate: real, seg: Segment): seq<real> {
    Slice(samples, (seg.startTime * sampleRate).Floor, (seg.endTime * sampleRate).Floor)
  }

  function FeaturesOf(samples: seq<real>, sampleRate: real, segs: seq<Segment>): (fs: seq<FeatureVector>)
    ensures |fs| == |segs|
  {
    seq(|segs|, i requires 0 <= i < |segs| => Extract(Window(samples, sampleRate, segs[i]), sampleRate))
  }

  /** `cluster.reduce((sum, idx) => sum + features[idx].pitch, 0)`. */
  function PitchSum(fs: seq<FeatureVector>, cluster: seq<nat>): real
    requires Below(cluster, |fs|)
  {
    if |cluster| == 0 then 0.0
    else PitchSum(fs, cluster[..|cluster| - 1]) + fs[cluster[|cluster| - 1]].pitch
  }

  /** The mean raw pitch of a cluster; `0 / 0` for an empty one. */
  function MeanPitch(fs: seq<FeatureVector>, cluster: seq<nat>): (m: Num)
    requires Below(cluster, |fs|)
    ensures m.Finite? <==> |cluster| > 0
  {
    if |cluster| == 0 then NaN else Finite(PitchSum(fs, cluster) / |cluster| as real)
  }

  /** `avgPitchCluster1 < avgPitchCluster2 ? ... : ...`: the pair
      (interviewer, interviewee) chosen from two clusters. */
  function Pick(fs: seq<FeatureVector>, c1: seq<nat>, c2: seq<nat>): (seq<nat>, seq<nat>)
    requires Below(c1, |fs|) && Below(c2, |fs|)
  {
    if Less(MeanPitch(fs, c1), MeanPitch(fs, c2)) then (c1, c2) else (c2, c1)
  }

  /** The first cluster is the interviewer's exactly when both clusters are
      populated and its mean pitch is strictly lower; in every other case,
      ties and empty clusters included, the second one is. */
  lemma PickSpec(fs: seq<FeatureVector>, c1: seq<nat>, c2: seq<nat>)
    requires Below(c1, |fs|) && Below(c2, |fs|) && c1 != c2
    ensures Pick(fs, c1, c2) == (c1, c2) || Pick(fs, c1, c2) == (c2, c1)
    ensures Pick(fs, c1, c2).0 == c1 <==>
      |c1| > 0 && |c2| > 0 && MeanPitch(fs, c1).v < MeanPitch(fs, c2).v
    ensures |c1| > 0 && |c2| > 0 ==>
      MeanPitch(fs, Pick(fs, c1, c2).0).v <= MeanPitch(fs, Pick(fs, c1, c2).1).v
  {
  }

  /** The (interviewer, interviewee) clusters of the feature list. */
  function Roles(fs: seq<FeatureVector>): (seq<nat>, seq<nat>)
    requires |fs| >= 1
  {
    Pick(fs, Clusters(fs).0, Clusters(fs).1)
  }

  /** The two k-means clusters of a non-empty feature list differ, so
      which one is the interviewer's is decided by the mean pitches alone. */
  lemma ClustersDistinct(fs: seq<FeatureVector>)
    requires |fs| >= 1
    ensures Clusters(fs).0 != Clusters(fs).1
  {
    if |fs| >= 2 {
      ClustersPartition(fs);
      var (c1, c2) := Clusters(fs);
      if |c1| > 0 {
        assert c1[0] in c1 && c1[0] !in c2;
      }
    }
  }

  function Labelled(segs: seq<Segment>, interviewer: seq<nat>): (r: seq<Segment>)
    ensures SameExceptLabels(r, segs)
    ensures forall i :: 0 <= i < |r| ==>
      r[i].speakerLabel == (if i in interviewer then InterviewerLabel else IntervieweeLabel)
  {
    seq(|segs|, i requires 0 <= i < |segs| =>
      segs[i].(speakerLabel := if i in interviewer then InterviewerLabel else IntervieweeLabel))
  }

  /** The diarized list: unchanged when empty, otherwise labelled by cluster
      role and smoothed. */
  function Diarized(samples: seq<real>, sampleRate: real, segs: seq<Segment>): seq<Segment> {
    if |segs| == 0 then segs
    else Smoothed(Labelled(segs, Roles(FeaturesOf(samples, sampleRate, segs)).0))
  }

  /** Only the labels change, and every label is the interviewer's or the
      interviewee's. */
  lemma DiarizedShape(samples: seq<real>, sampleRate: real, segs: seq<Segment>)
    ensures SameExceptLabels(Diarized(samples, sampleRate, segs), segs)
    ensures |segs| > 0 ==> LabelsIn(Diarized(samples, sampleRate, segs), {InterviewerLabel, IntervieweeLabel})
  {
    if |segs| > 0 {
      var l := Labelled(segs, Roles(FeaturesOf(samples, sampleRate, segs)).0);
      SmoothedKeepsLabels(l, {InterviewerLabel, IntervieweeLabel});
    }
  }

  /** A lone segment forms cluster `[0]` against an empty cluster whose mean
      is NaN, so the empty cluster is the interviewer's and the segment is
      labelled interviewee. */
  lemma SingleSegmentIsInterviewee(samples: seq<real>, sampleRate: real, segs: seq<Segment>)
    requires |segs| == 1
    ensures Diarized(samples, sampleRate, segs) == [segs[0].(speakerLabel := IntervieweeLabel)]
  {
    var fs := FeaturesOf(samples, sampleRate, segs);
    assert Clusters(fs) == ([0], []);
    assert Roles(fs) == ([], [0]);
  }

  /** A segment whose window holds no samples gives NaN energy; with two or
      more segments every index then ends in the second cluster, whose
      partner's mean is NaN, so every segment is labelled interviewer. */
  lemma EmptyWindowMakesAllInterviewer(samples: seq<real>, sampleRate: real, segs: seq<Segment>, k: nat)
    requires |segs| >= 2 && k < |segs| && Window(samples, sampleRate, segs[k]) == []
    ensures forall i :: 0 <= i < |segs| ==> Diarized(samples, sampleRate, segs)[i].speakerLabel == InterviewerLabel
  {
    var fs := FeaturesOf(samples, sampleRate, segs);
    assert fs[k].energy == NaN;
    NaNFeatureMakesAllInterviewer(fs, k);
    var d := Diarized(samples, sampleRate, segs);
    AllInterviewerDiarized(samples, sampleRate, segs);
    forall i | 0 <= i < |segs| ensures d[i].speakerLabel == InterviewerLabel {
      assert d[i].speakerLabel in {InterviewerLabel};
    }
  }

  /** When the interviewer cluster holds every index, smoothing has only
      interviewer labels to copy. */
  lemma AllInterviewerDiarized(samples: seq<real>, sampleRate: real, segs: seq<Segment>)
    requires |segs| > 0 && Roles(FeaturesOf(samples, sampleRate, segs)).0 == AllIndices(|segs|)
    ensures |Diarized(samples, sampleRate, segs)| == |segs|
    ensures LabelsIn(Diarized(samples, sampleRate, segs), {InterviewerLabel})
  {
    var l := Labelled(segs, AllIndices(|segs|));
    LabelledAllInterviewer(segs);
    SmoothedKeepsLabels(l, {InterviewerLabel});
  }

  /** With every index in the interviewer cluster, every label is the
      interviewer's. */
  lemma LabelledAllInterviewer(segs: seq<Segment>)
    ensures LabelsIn(Labelled(segs, AllIndices(|segs|)), {InterviewerLabel})
  {
    var l := Labelled(segs, AllIndices(|segs|));
    forall i | 0 <= i < |segs| ensures l[i].speakerLabel == InterviewerLabel {
      assert AllIndices(|segs|)[i] == i;
    }
  }

  /** A NaN energy puts every index in the second cluster, whose partner's
      mean pitch is NaN, so the second cluster is the interviewer's. */
  lemma NaNFeatureMakesAllInterviewer(fs: seq<FeatureVector>, k: nat)
    requires |fs| >= 2 && k < |fs| && fs[k].energy == NaN
    ensures Roles(fs).0 == AllIndices(|fs|)
  {
    NaNFeatureEndsInSecondCluster(fs, k);
    assert MeanPitch(fs, Clusters(fs).0) == NaN;
  }

  method PerformDiarization(channelData: seq<real>, sampleRate: real, segments: seq<Segment>)
    returns (result: seq<Segment>)
    ensures result == Diarized(channelData, sampleRate, segments)
  {
    if |segments| == 0 {
      return segments;
    }
    var features: seq<FeatureVector> := [];
    var i := 0;
    while i < |segments|
      invariant 0 <= i <= |segments|
      invariant features == FeaturesOf(channelData, sampleRate, segments)[..i]
    {
      var f := ExtractFeatures(Window(channelData, sampleRate, segments[i]), sampleRate);
      features := features + [f];
      i := i + 1;
    }
    assert features == FeaturesOf(channelData, sampleRate, segments);
    var cluster1, cluster2 := KMeansClustering(features);
    var avgPitchCluster1 := MeanPitch(features, cluster1);
    var avgPitchCluster2 := MeanPitch(features, cluster2);
    var interviewerCluster := if Less(avgPitchCluster1, avgPitchCluster2) then cluster1 else cluster2;
    var diarizedSegments := Labelled(segments, interviewerCluster);
    result := SmoothSpeakerTransitions(diarizedSegments);
  }
}
