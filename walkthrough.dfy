/** A whole assessment driven through the click methods, with what the
    results page must show at the end, derived from their contracts alone:
    four images answered "Normal", "Tumor", "cyst" typed as free text and
    a blank free-text answer. */
module Walkthrough {
  import opened Labels
  import opened Assessment
  import opened Report

  /** "cyst" typed in free text is stored as "Cyst". */
  lemma NormalizeCyst()
    ensures Normalize("cyst") == "Cyst"
  {
    NotBlankAt("cyst", 0);
    NormalizeTo("cyst", "Cyst");
  }

  /** A new session, started: the countdown has run and the first image
      is showing with its timer started at 1000 ms. */
  method StartedSession() returns (s: SessionState)
    ensures fresh(s) && fresh(s.images) && s.images.Length == 4
    ensures s.Valid() && s.Settled()
    ensures s.page == Session && !s.customMode && s.startTime == Some(1000)
    ensures s.currentIndex == 0 && s.results == []
  {
    s := new SessionState();
    assert |s.images[..]| == |multiset(FileList)| == 4;
    s.ClickInitialize();
    s.FinishCountdown(1000);
  }

  /** The first two images answered with the fixed buttons. */
  method FirstTwoAnswers() returns (s: SessionState)
    ensures fresh(s) && fresh(s.images) && s.images.Length == 4
    ensures s.Valid() && s.Settled()
    ensures s.page == Session && !s.customMode && s.startTime == Some(3100)
    ensures s.currentIndex == 2 && |s.results| == 2
    ensures s.results[0].diagnosis == "Normal" && s.results[0].timeMs == 1000
    ensures s.results[1].diagnosis == "Tumor" && s.results[1].timeMs == 900
  {
    s := StartedSession();
    NormalizeFixedAnswers();
    s.ClickAnswer("Normal", 2000, "10:00:02", 2100);
    ghost var first := s.results[0];
    assert s.results == [first];
    s.ClickAnswer("Tumor", 3000, "10:00:03", 3100);
    assert s.results == [first, s.results[1]];
  }

  /** The third image answered "cyst" through the free-text form, and the
      form opened again on the fourth image. */
  method ThreeAnswers() returns (s: SessionState)
    ensures fresh(s) && fresh(s.images) && s.images.Length == 4
    ensures s.Valid() && s.Settled()
    ensures s.page == Session && s.customMode && s.startTime == Some(4100)
    ensures s.currentIndex == 3 && |s.results| == 3
    ensures s.results[0].diagnosis == "Normal" && s.results[0].timeMs == 1000
    ensures s.results[1].diagnosis == "Tumor" && s.results[1].timeMs == 900
    ensures s.results[2].diagnosis == "Cyst" && s.results[2].timeMs == 900
  {
    s := FirstTwoAnswers();
    ghost var first, second := s.results[0], s.results[1];
    assert s.results == [first, second];
    NormalizeCyst();
    s.ClickOther();
    s.SubmitCustom("cyst", 4000, "10:00:04", 4100);
    assert s.results == [first, second, s.results[2]];
    s.ClickOther();
  }

  /** The response times of the scenario average 925 ms. */
  lemma FourCaseMean(a: Record, b: Record, c: Record, d: Record)
    requires a.timeMs == 1000 && b.timeMs == 900 && c.timeMs == 900 && d.timeMs == 900
    ensures Summarize([a, b, c, d]) == Metrics(4, 925.0)
  {
    TotalMsAppend([], a);
    TotalMsAppend([a], b);
    TotalMsAppend([a, b], c);
    TotalMsAppend([a, b, c], d);
    assert [a] == [] + [a];
    assert [a, b] == [a] + [b];
    assert [a, b, c] == [a, b] + [c];
    assert [a, b, c, d] == [a, b, c] + [d];
  }

  /** The last image submitted empty from the free-text form: the deck is
      used up and the results page shows. */
  method AllFourAnswered() returns (s: SessionState)
    ensures fresh(s) && fresh(s.images) && s.images.Length == 4
    ensures s.Valid() && s.Settled()
    ensures s.page == Results && s.startTime == None && s.currentIndex == 4 && |s.results| == 4
    ensures s.results[0].diagnosis == "Normal" && s.results[0].timeMs == 1000
    ensures s.results[1].diagnosis == "Tumor" && s.results[1].timeMs == 900
    ensures s.results[2].diagnosis == "Cyst" && s.results[2].timeMs == 900
    ensures s.results[3].diagnosis == Undisclosed && s.results[3].timeMs == 900
  {
    s := ThreeAnswers();
    ghost var before := s.results;
    var blank := "";
    NormalizeBlank(blank);
    s.SubmitCustom(blank, 5000, "10:00:05", 5100);
    assert s.results[3].diagnosis == Undisclosed && s.results[3].timeMs == 900;
    assert s.results[..3] == before;
  }

  /** The results page lists the four labels in the order answered and
      shows four cases with a mean of 925 ms; "Start New Assessment" then
      clears everything, leaving nothing to summarise. */
  method FourImageAssessment() returns (labels: seq<string>, summary: Summary, afterReset: Summary)
    ensures labels == ["Normal", "Tumor", "Cyst", "Undisclosed"]
    ensures summary == Metrics(4, 925.0)
    ensures afterReset == NoData
  {
    var s := AllFourAnswered();
    labels := [s.results[0].diagnosis, s.results[1].diagnosis, s.results[2].diagnosis, s.results[3].diagnosis];
    summary := Summarize(s.results);
    assert s.results == [s.results[0], s.results[1], s.results[2], s.results[3]];
    FourCaseMean(s.results[0], s.results[1], s.results[2], s.results[3]);

    s.ClickStartNew();
    assert s.page == Landing && s.currentIndex == 0;
    afterReset := Summarize(s.results);
  }
}
