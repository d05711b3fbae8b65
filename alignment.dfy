/** Dominant-speaker alignment (`align_transcription`): every transcript
    segment gets the speaker label whose turns overlap it the longest in
    total, or "UNKNOWN" when no turn overlaps it.

    The per-segment dictionary of `align_transcription` keeps its keys in insertion
    order, and `max(d, key=d.get)` returns the first key of maximal value;
    the specification below therefore keeps the order of the keys
    (`KeyOrder`) beside their sums (`Total`). Both are defined by
    recursion on the prefix of the turns, the order the loop visits them;
    `FirstMax` recurses on the prefix of the keys the same way. */
module Alignment {
  import opened Text

  /** A transcript segment from the ASR engine. Times are in seconds. */
  datatype Segment = Segment(start: real, end: real, text: string)

  /** One track of the diarization annotation as `itertracks(yield_label=True)`
      yields it: the turn's interval, the track name and the speaker label. */
  datatype Track = Track(start: real, end: real, track: string, speaker: string)

  /** A speaker turn as the alignment reads it: `(start, end, label)`. */
  datatype Turn = Turn(start: real, end: real, speaker: string)

  /** One entry of the response. */
  datatype AlignedSegment = AlignedSegment(start: real, end: real, text: string, speaker: string)

  /** The label of a segment that no turn overlaps. */
  const Unknown := "UNKNOWN"

  function Max(a: real, b: real): real { if a >= b then a else b }

  function Min(a: real, b: real): real { if a <= b then a else b }

  /** `max(0, min(seg_end, d_end) - max(seg_start, d_start))`: never
      negative, and positive exactly when the two intervals share a stretch
      of positive length (touching or disjoint intervals give 0). */
  function Overlap(s: Segment, t: Turn): (d: real)
    ensures d >= 0.0
    ensures d > 0.0 <==> s.start < s.end && t.start < t.end && t.start < s.end && s.start < t.end
    ensures d > 0.0 ==> d <= s.end - s.start && d <= t.end - t.start
  {
    Max(0.0, Min(s.end, t.end) - Max(s.start, t.start))
  }

  /** The amount turn `t` adds to the sum of label `l`: only strictly
      positive overlaps are added, and only to the turn's own label. */
  function Share(s: Segment, t: Turn, l: string): real
  {
    if t.speaker == l && Overlap(s, t) > 0.0 then Overlap(s, t) else 0.0
  }

  /** The accumulated overlap of label `l` with segment `s`: the sum of the
      positive overlaps of all of `l`'s turns. */
  function Total(s: Segment, turns: seq<Turn>, l: string): (sum: real)
    ensures sum >= 0.0
  {
    if turns == [] then 0.0
    else Total(s, turns[..|turns| - 1], l) + Share(s, turns[|turns| - 1], l)
  }

  /** Label `l` owns a turn that overlaps `s` by a positive amount. */
  predicate Overlapped(s: Segment, turns: seq<Turn>, l: string)
  {
    exists i :: 0 <= i < |turns| && turns[i].speaker == l && Overlap(s, turns[i]) > 0.0
  }

  /** The keys of `align_transcription`'s dictionary, in insertion order: each label in
      the order of its first positively overlapping turn. */
  function KeyOrder(s: Segment, turns: seq<Turn>): seq<string>
  {
    if turns == [] then []
    else
      var keys := KeyOrder(s, turns[..|turns| - 1]);
      var t := turns[|turns| - 1];
      if Overlap(s, t) > 0.0 && t.speaker !in keys then keys + [t.speaker] else keys
  }

  /** The dictionary's contents: every key with its accumulated overlap. */
  function Totals(s: Segment, turns: seq<Turn>): map<string, real>
  {
    map l | l in KeyOrder(s, turns) :: Total(s, turns, l)
  }

  /** `max(keys, key=f.get)`: the first key whose value no other key exceeds
      (a later key replaces the best so far only when strictly greater). */
  function FirstMax(keys: seq<string>, f: map<string, real>): (w: string)
    requires |keys| > 0
    requires forall k :: k in keys ==> k in f
    ensures w in keys
    ensures forall k :: k in keys ==> f[k] <= f[w]
  {
    if |keys| == 1 then keys[0]
    else
      var w := FirstMax(keys[..|keys| - 1], f);
      var k := keys[|keys| - 1];
      assert forall x :: x in keys ==> x in keys[..|keys| - 1] || x == k;
      if f[k] > f[w] then k else w
  }

  /** The label `align_transcription` assigns to segment `s`. */
  function Dominant(s: Segment, turns: seq<Turn>): string
  {
    var keys := KeyOrder(s, turns);
    if keys == [] then Unknown
    else FirstMax(keys, Totals(s, turns))
  }

  /** The response entry for one segment on the aligned path. */
  function AlignOne(s: Segment, turns: seq<Turn>): AlignedSegment
  {
    AlignedSegment(s.start, s.end, Strip(s.text), Dominant(s, turns))
  }

  /** The whole response on the aligned path, segment by segment. */
  function AlignAll(segments: seq<Segment>, turns: seq<Turn>): seq<AlignedSegment>
  {
    seq(|segments|, i requires 0 <= i < |segments| => AlignOne(segments[i], turns))
  }

  function ToTurn(t: Track): Turn
  {
    Turn(t.start, t.end, t.speaker)
  }

  /** The annotation flattened to `(start, end, label)` triples, in the
      order `itertracks` yields them. */
  function Turns(annotation: seq<Track>): seq<Turn>
  {
    seq(|annotation|, i requires 0 <= i < |annotation| => ToTurn(annotation[i]))
  }

  // ---------------------------------------------------------------------
  // The loops of `align_transcription`

  /** The inner loop of `align_transcription`: accumulate the positive overlaps in an
      insertion-ordered dictionary, given here as its keys in order and
      its key-to-sum map. */
  method Accumulate(s: Segment, turns: seq<Turn>) returns (keys: seq<string>, sums: map<string, real>)
    ensures keys == KeyOrder(s, turns)
    ensures sums == Totals(s, turns)
  {
    keys, sums := [], map[];
    var j := 0;
    while j < |turns|
      invariant 0 <= j <= |turns|
      invariant keys == KeyOrder(s, turns[..j])
      invariant forall l :: l in sums <==> l in keys
      invariant forall l :: l in sums ==> sums[l] == Total(s, turns[..j], l)
    {
      var t := turns[j];
      var overlap := Max(0.0, Min(s.end, t.end) - Max(s.start, t.start));
      if overlap > 0.0 {
        sums := sums[t.speaker := (if t.speaker in sums then sums[t.speaker] else 0.0) + overlap];
        if t.speaker !in keys {
          keys := keys + [t.speaker];
        }
      }
      KeyOrderStep(s, turns, j);
      TotalPositive(s, turns[..j], t.speaker);
      forall l ensures Total(s, turns[..j + 1], l) == Total(s, turns[..j], l) + Share(s, t, l) {
        TotalStep(s, turns, j, l);
      }
      j := j + 1;
    }
    assert turns[..|turns|] == turns;
  }

  /** Python's `max(d, key=d.get)` over a non-empty dictionary: walk the
      keys in order and replace the best key only by a strictly greater
      one. */
  method MaxByValue(keys: seq<string>, sums: map<string, real>) returns (best: string)
    requires |keys| > 0
    requires forall k :: k in keys ==> k in sums
    ensures best == FirstMax(keys, sums)
  {
    best := keys[0];
    var i := 1;
    while i < |keys|
      invariant 1 <= i <= |keys|
      invariant best == FirstMax(keys[..i], sums)
    {
      FirstMaxStep(keys, sums, i);
      if sums[keys[i]] > sums[best] {
        best := keys[i];
      }
      i := i + 1;
    }
    assert keys[..|keys|] == keys;
  }

  /** The body of the per-segment loop: accumulate, then choose the first
      key of maximal sum, or "UNKNOWN" when the dictionary is empty. */
  method DominantSpeaker(s: Segment, turns: seq<Turn>) returns (best: string)
    ensures best == Dominant(s, turns)
  {
    var keys, sums := Accumulate(s, turns);
    if |keys| > 0 {
      best := MaxByValue(keys, sums);
    } else {
      best := Unknown;
    }
  }

  /** The first loop of `align_transcription`: flatten the annotation into
      `(start, end, label)` triples. */
  method Flatten(annotation: seq<Track>) returns (turns: seq<Turn>)
    ensures turns == Turns(annotation)
  {
    turns := [];
    for k := 0 to |annotation|
      invariant |turns| == k
      invariant forall i :: 0 <= i < k ==> turns[i] == ToTurn(annotation[i])
    {
      var track := annotation[k];
      turns := turns + [Turn(track.start, track.end, track.speaker)];
    }
  }

  /** `align_transcription(segments, diarization)`: flatten the annotation,
      then emit one entry per segment, in segment order, keeping the
      segment's interval, stripping its text and labelling it with its
      dominant speaker. */
  method Align(segments: seq<Segment>, annotation: seq<Track>) returns (aligned: seq<AlignedSegment>)
    ensures |aligned| == |segments|
    ensures forall i :: 0 <= i < |segments| ==>
              && aligned[i].start == segments[i].start
              && aligned[i].end == segments[i].end
              && aligned[i].text == Strip(segments[i].text)
              && aligned[i].speaker == Dominant(segments[i], Turns(annotation))
  {
    var turns := Flatten(annotation);
    aligned := [];
    for k := 0 to |segments|
      invariant |aligned| == k
      invariant forall i :: 0 <= i < k ==> aligned[i] == AlignOne(segments[i], turns)
    {
      var seg := segments[k];
      var speaker := DominantSpeaker(seg, turns);
      aligned := aligned + [AlignedSegment(seg.start, seg.end, Strip(seg.text), speaker)];
    }
  }

  // ---------------------------------------------------------------------
  // Facts about the specification

  /** The key order after turn `j`: the one before it, with turn `j`'s
      label appended when it overlaps and is new. */
  lemma KeyOrderStep(s: Segment, turns: seq<Turn>, j: nat)
    requires j < |turns|
    ensures KeyOrder(s, turns[..j + 1]) ==
            var keys := KeyOrder(s, turns[..j]);
            if Overlap(s, turns[j]) > 0.0 && turns[j].speaker !in keys then keys + [turns[j].speaker] else keys
  {
    var post := turns[..j + 1];
    assert post[..|post| - 1] == turns[..j];
    assert post[|post| - 1] == turns[j];
  }

  /** One step of the accumulation loop: turn `j` adds its share to its
      label's sum. */
  lemma TotalStep(s: Segment, turns: seq<Turn>, j: nat, l: string)
    requires j < |turns|
    ensures Total(s, turns[..j + 1], l) == Total(s, turns[..j], l) + Share(s, turns[j], l)
  {
    var post := turns[..j + 1];
    assert post[..|post| - 1] == turns[..j];
    assert post[|post| - 1] == turns[j];
  }

  /** A label is a key of the dictionary exactly when one of its turns
      overlaps the segment by a positive amount. */
  lemma {:induction false} KeyOrderMember(s: Segment, turns: seq<Turn>, l: string)
    ensures l in KeyOrder(s, turns) <==> Overlapped(s, turns, l)
  {
    if turns != [] {
      var pre := turns[..|turns| - 1];
      var t := turns[|turns| - 1];
      KeyOrderMember(s, pre, l);
      if Overlapped(s, pre, l) {
        var i :| 0 <= i < |pre| && pre[i].speaker == l && Overlap(s, pre[i]) > 0.0;
        assert turns[i] == pre[i];
      }
      if Overlapped(s, turns, l) {
        var i :| 0 <= i < |turns| && turns[i].speaker == l && Overlap(s, turns[i]) > 0.0;
        if i < |pre| { assert pre[i] == turns[i]; }
      }
    }
  }

  /** A label is a key of the dictionary exactly when its accumulated
      overlap is positive; a label that is not a key has sum 0. */
  lemma {:induction false} TotalPositive(s: Segment, turns: seq<Turn>, l: string)
    ensures l in KeyOrder(s, turns) <==> Total(s, turns, l) > 0.0
  {
    if turns != [] {
      TotalPositive(s, turns[..|turns| - 1], l);
    }
  }

  /** Every label appears at most once among the keys. */
  lemma {:induction false} KeyOrderDistinct(s: Segment, turns: seq<Turn>)
    ensures forall i, j :: 0 <= i < j < |KeyOrder(s, turns)| ==> KeyOrder(s, turns)[i] != KeyOrder(s, turns)[j]
  {
    if turns != [] {
      KeyOrderDistinct(s, turns[..|turns| - 1]);
    }
  }

  /** The keys for a prefix of the turns are a prefix of the keys for all
      of them: keys are only ever appended. */
  lemma {:induction false} KeyOrderPrefix(s: Segment, turns: seq<Turn>, n: nat)
    requires n <= |turns|
    ensures |KeyOrder(s, turns[..n])| <= |KeyOrder(s, turns)|
    ensures KeyOrder(s, turns[..n]) == KeyOrder(s, turns)[..|KeyOrder(s, turns[..n])|]
    decreases |turns|
  {
    if n < |turns| {
      var pre := turns[..|turns| - 1];
      assert pre[..n] == turns[..n];
      KeyOrderPrefix(s, pre, n);
    } else {
      assert turns[..n] == turns;
    }
  }

  /** The sums are additive over concatenated turn lists. */
  lemma {:induction false} TotalAppend(s: Segment, a: seq<Turn>, b: seq<Turn>, l: string)
    ensures Total(s, a + b, l) == Total(s, a, l) + Total(s, b, l)
    decreases |b|
  {
    if b == [] {
      assert a + b == a;
    } else {
      var ab := a + b;
      assert ab[..|ab| - 1] == a + b[..|b| - 1];
      assert ab[|ab| - 1] == b[|b| - 1];
      TotalAppend(s, a, b[..|b| - 1], l);
    }
  }

  /** The turn list need not be in temporal order: swapping two blocks of
      turns leaves every label's accumulated overlap unchanged. */
  lemma TotalOrderInsensitive(s: Segment, a: seq<Turn>, b: seq<Turn>, l: string)
    ensures Total(s, a + b, l) == Total(s, b + a, l)
  {
    TotalAppend(s, a, b, l);
    TotalAppend(s, b, a, l);
  }

  /** One step of `max`: the best of the first `i + 1` keys is key `i`
      when it is strictly greater than the best of the first `i`. */
  lemma FirstMaxStep(keys: seq<string>, f: map<string, real>, i: nat)
    requires 0 < i < |keys|
    requires forall k :: k in keys ==> k in f
    ensures forall k :: k in keys[..i] ==> k in f
    ensures forall k :: k in keys[..i + 1] ==> k in f
    ensures FirstMax(keys[..i + 1], f) ==
            if f[keys[i]] > f[FirstMax(keys[..i], f)] then keys[i] else FirstMax(keys[..i], f)
  {
    var next := keys[..i + 1];
    assert next[..i] == keys[..i] && next[i] == keys[i];
    assert forall k :: k in next ==> k in keys;
  }

  /** Among tied keys, `FirstMax` returns the one that comes first: if the
      key at `p` ties with the winner, the winner is among the first `p + 1`
      keys. */
  lemma {:induction false} FirstMaxEarliest(keys: seq<string>, f: map<string, real>, p: nat)
    requires |keys| > 0
    requires forall k :: k in keys ==> k in f
    requires p < |keys| && f[keys[p]] == f[FirstMax(keys, f)]
    ensures FirstMax(keys, f) in keys[..p + 1]
  {
    if |keys| > 1 {
      var pre := keys[..|keys| - 1];
      if p == |keys| - 1 {
        assert keys[..p + 1] == keys;
      } else {
        assert pre[p] == keys[p];
        assert forall x :: x in pre ==> x in keys;
        FirstMaxEarliest(pre, f, p);
        assert pre[..p + 1] == keys[..p + 1];
      }
    }
  }

  /** When no turn overlaps the segment (also when there are no turns at
      all) the label is "UNKNOWN"; otherwise it is the label of a turn that
      does overlap the segment. */
  lemma DominantUnknown(s: Segment, turns: seq<Turn>)
    ensures (forall i :: 0 <= i < |turns| ==> Overlap(s, turns[i]) == 0.0) ==> Dominant(s, turns) == Unknown
    ensures (exists i :: 0 <= i < |turns| && Overlap(s, turns[i]) > 0.0) ==> Overlapped(s, turns, Dominant(s, turns))
  {
    var keys := KeyOrder(s, turns);
    forall i | 0 <= i < |turns| && Overlap(s, turns[i]) > 0.0 ensures turns[i].speaker in keys {
      KeyOrderMember(s, turns, turns[i].speaker);
    }
    if keys != [] {
      KeyOrderMember(s, turns, keys[0]);
      KeyOrderMember(s, turns, Dominant(s, turns));
    }
  }

  /** The chosen label's accumulated overlap is at least that of every
      label, whether or not that label has turns. */
  lemma DominantMaximal(s: Segment, turns: seq<Turn>)
    ensures forall l :: Total(s, turns, l) <= Total(s, turns, Dominant(s, turns))
  {
    var keys := KeyOrder(s, turns);
    var w := Dominant(s, turns);
    forall l ensures Total(s, turns, l) <= Total(s, turns, w) {
      TotalPositive(s, turns, l);
      if l in keys {
        assert Totals(s, turns)[l] <= Totals(s, turns)[w];
      }
    }
  }

  /** The tie-break: when turn `j` overlaps the segment and its label ties
      with the chosen one, the chosen label owns an overlapping turn no
      later than `j`; so among tied labels the one whose first overlapping
      turn comes first wins. */
  lemma DominantTieBreak(s: Segment, turns: seq<Turn>)
    ensures forall j :: 0 <= j < |turns| && Overlap(s, turns[j]) > 0.0 &&
                        Total(s, turns, turns[j].speaker) == Total(s, turns, Dominant(s, turns)) ==>
              Overlapped(s, turns[..j + 1], Dominant(s, turns))
  {
    forall j | 0 <= j < |turns| && Overlap(s, turns[j]) > 0.0 &&
               Total(s, turns, turns[j].speaker) == Total(s, turns, Dominant(s, turns))
      ensures Overlapped(s, turns[..j + 1], Dominant(s, turns))
    {
      TieBreakAt(s, turns, j);
    }
  }

  lemma TieBreakAt(s: Segment, turns: seq<Turn>, j: nat)
    requires j < |turns| && Overlap(s, turns[j]) > 0.0
    requires Total(s, turns, turns[j].speaker) == Total(s, turns, Dominant(s, turns))
    ensures Overlapped(s, turns[..j + 1], Dominant(s, turns))
  {
    var keys := KeyOrder(s, turns);
    var sums := Totals(s, turns);
    var w := Dominant(s, turns);
    var l := turns[j].speaker;
    var upto := turns[..j + 1];
    assert upto[j] == turns[j];
    KeyOrderMember(s, upto, l);
    KeyOrderPrefix(s, turns, j + 1);
    var early := KeyOrder(s, upto);
    var p :| 0 <= p < |early| && early[p] == l;
    assert keys[p] == l;
    FirstMaxEarliest(keys, sums, p);
    assert keys[..p + 1] == early[..p + 1];
    KeyOrderMember(s, upto, w);
  }
}
