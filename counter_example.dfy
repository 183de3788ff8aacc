/**
 * The counter pattern of the refresh worked through one concrete counter
 * text, "42 Replies, 1,337 Views, 7 Subscribers": the `\d{1,} Views`
 * match starts after the thousands separator, so the views counter is 337.
 */
module CounterExample {
  import opened Wrappers
  import opened Decimal
  import opened UpdateNewpunchInfo

  const Sample: string := "42 Replies, 1,337 Views, 7 Subscribers"

  /** The digit run at position 14 is "337" and ends at the space before "Views". */
  lemma SampleViewsRunEnd()
    ensures RunEnd(Sample, 14) == 17
  {
    assert !IsDigit(Sample[17]);
    assert RunEnd(Sample, 17) == 17;
    assert IsDigit(Sample[16]);
    assert RunEnd(Sample, 16) == 17;
  }

  /** "42" is followed by " Replies", so neither of its digits starts a match. */
  lemma SampleRepliesNoMatch(k: nat)
    requires k <= 1
    ensures !MatchesAt(Sample, "Views", k)
  {
    assert RunEnd(Sample, 2) == 2;
    assert RunEnd(Sample, 1) == 2;
    assert RunEnd(Sample, 0) == 2;
    assert Sample[2..8][1] != " Views"[1];
  }

  /** "1" is followed by ",", so it does not start a match. */
  lemma SampleThousandsNoMatch()
    ensures !MatchesAt(Sample, "Views", 12)
  {
    assert RunEnd(Sample, 13) == 13;
    assert RunEnd(Sample, 12) == 13;
    assert Sample[13..19][0] != " Views"[0];
  }

  /** No position before the "337" run starts a match. */
  lemma SampleNoEarlierMatch()
    ensures forall k | 0 <= k < 14 :: !MatchesAt(Sample, "Views", k)
  {
    forall k | 0 <= k < 14 ensures !MatchesAt(Sample, "Views", k) {
      if k <= 1 {
        SampleRepliesNoMatch(k);
      } else if k == 12 {
        SampleThousandsNoMatch();
      } else {
        assert !IsDigit(Sample[k]);
      }
    }
  }

  /** The leftmost match is the "337" run. */
  lemma SampleViewsMatch()
    ensures FindMatch(Sample, "Views", 0) == Some(14)
  {
    SampleViewsRunEnd();
    assert Sample[17..23] == " Views";
    assert MatchesAt(Sample, "Views", 14);
    SampleNoEarlierMatch();
  }

  lemma SampleViewsCapture()
    ensures Capture(Sample, "Views") == Some("337")
  {
    SampleViewsMatch();
    SampleViewsRunEnd();
    assert Capture(Sample, "Views") == Some(Sample[14..17]);
    SampleViewsDigits();
  }

  lemma SampleViewsDigits()
    ensures Sample[14..17] == "337"
  {
    assert Sample[14] == '3' && Sample[15] == '3' && Sample[16] == '7';
  }

  /** The views counter of the sample is 337, not 1337. */
  lemma SampleViewsCounter()
    ensures Counter(Sample, "Views") == Some(337)
  {
    SampleViewsCapture();
    assert "337"[..2] == "33" && "33"[..1] == "3" && "3"[..0] == "";
    assert DigitsValue("3") == 3;
    assert DigitsValue("33") == 33;
    assert DigitsValue("337") == 337;
  }
}
