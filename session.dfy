/** The assessment session: the record the app keeps in its session state,
    the handlers that change it, and the page runs and button clicks that
    drive it from screen to screen.

    The host re-runs the whole page script on every user event; a run that
    calls `rerun` is followed at once by another run. A click method below
    is one such event: the run that handles the click plus the runs it
    chains, up to the state the user next sees. Clocks are parameters, in
    whole milliseconds. */
module Assessment {
  import opened Labels

  datatype Option<T> = None | Some(value: T)

  /** The four screens. */
  datatype Page = Landing | Countdown | Session | Results

  /** One answered image, as record_choice appends it. `timeMs` is the
      response time in milliseconds; `timestamp` is the wall-clock time of
      the answer, formatted by the host and opaque here. */
  datatype Record = Record(imageId: string, diagnosis: string, timeMs: int, timestamp: string)

  /** The images of one assessment, before shuffling. */
  const FileList: seq<string> := ["pt1.jpg", "pt2.jpg", "nt1.jpg", "nt2.jpg"]

  /** Image id recorded when the cursor is past the end of the deck. */
  const UnknownImage: string := "Unknown"

  /** The response time record_choice computes: `now` minus the timer start
      when the timer is set. record_choice tests the start for truth, so an
      unset timer and a timer started at clock value 0 both give 0. The
      time is never more than `now`, and it is negative only when the clock
      reads earlier than the timer start. */
  function Elapsed(startTime: Option<nat>, now: nat): (d: int)
    ensures startTime == None || startTime == Some(0) ==> d == 0
    ensures startTime.Some? && startTime.value != 0 ==> d == now - startTime.value
    ensures d <= now
    ensures (startTime.Some? ==> startTime.value <= now) ==> d >= 0
  {
    if startTime.Some? && startTime.value != 0 then now - startTime.value else 0
  }

  /** The image id record_choice stores for cursor `index`: the image under
      the cursor, or the "Unknown" sentinel past the end of the deck. */
  function ImageAt(deck: seq<string>, index: nat): (id: string)
    ensures index < |deck| ==> id == deck[index]
    ensures index >= |deck| ==> id == UnknownImage
    ensures id in deck || id == UnknownImage
  {
    if index < |deck| then deck[index] else UnknownImage
  }

  /** `random.shuffle`: the Fisher-Yates shuffle, each draw
      `randbelow(i + 1)` left to the verifier as any index up to `i`. Its
      result is some permutation of its input. */
  method Shuffle(a: array<string>)
    modifies a
    ensures multiset(a[..]) == old(multiset(a[..]))
  {
    var i := a.Length;
    while i > 1
      invariant 0 <= i <= a.Length
      invariant multiset(a[..]) == old(multiset(a[..]))
    {
      i := i - 1;
      var j :| 0 <= j <= i;
      a[i], a[j] := a[j], a[i];
    }
  }

  /** The k-th record is about the k-th image of `deck`. */
  predicate FollowsDeck(rs: seq<Record>, deck: seq<string>) {
    |rs| <= |deck| && forall k :: 0 <= k < |rs| ==> rs[k].imageId == deck[k]
  }

  /** A record about the next image of the deck keeps the records in deck order. */
  lemma RecordsFollowDeck(rs: seq<Record>, deck: seq<string>, r: Record)
    requires FollowsDeck(rs, deck) && |rs| < |deck| && r.imageId == deck[|rs|]
    ensures FollowsDeck(rs + [r], deck)
  {
  }

  class SessionState {
    var page: Page
    var images: array<string>
    var currentIndex: nat
    var results: seq<Record>
    var startTime: Option<nat>
    var customMode: bool

    /** What every handler keeps: one record per answered image, the k-th
        record being about the k-th image of the deck; the cursor never
        passes the end of the deck; the timer runs and free-text entry is
        open only on the session page while an image is showing. */
    ghost predicate Valid()
      reads this, images
    {
      |results| == currentIndex <= images.Length
      && FollowsDeck(results, images[..])
      && (startTime.Some? ==> page == Session && currentIndex < images.Length)
      && (customMode ==> page == Session && currentIndex < images.Length)
    }

    /** The states the user sees between events: the landing page and the
        countdown have nothing recorded; the session page shows an image
        with its timer running; the results page comes only after the
        whole deck. */
    ghost predicate Settled()
      reads this
    {
      (page == Landing || page == Countdown ==> currentIndex == 0)
      && (page == Session ==> currentIndex < images.Length && startTime.Some?)
      && (page == Results ==> currentIndex == images.Length)
    }

    /** The first run: landing page, the file list shuffled, nothing
        recorded, no timer, standard input. */
    constructor ()
      ensures Valid() && Settled()
      ensures fresh(images)
      ensures page == Landing && currentIndex == 0 && results == []
      ensures startTime == None && !customMode
      ensures multiset(images[..]) == multiset(FileList)
    {
      var files := new string[|FileList|](i requires 0 <= i < |FileList| => FileList[i]);
      assert files[..] == FileList;
      Shuffle(files);
      page := Landing;
      images := files;
      currentIndex := 0;
      results := [];
      startTime := None;
      customMode := false;
    }

    // -------------------------------------------------------------------
    // Handlers
    // -------------------------------------------------------------------

    /** go_home: back to the landing page with everything cleared and the
        same deck reshuffled in place. */
    method GoHome()
      modifies this, images
      ensures Valid()
      ensures images == old(images)
      ensures multiset(images[..]) == old(multiset(images[..]))
      ensures page == Landing && currentIndex == 0 && results == []
      ensures startTime == None && !customMode
    {
      page := Landing;
      currentIndex := 0;
      results := [];
      startTime := None;
      customMode := false;
      Shuffle(images);
    }

    /** start_countdown: only the page changes. */
    method StartCountdown()
      modifies this
      ensures page == Countdown
      ensures images == old(images) && currentIndex == old(currentIndex) && results == old(results)
      ensures startTime == old(startTime) && customMode == old(customMode)
    {
      page := Countdown;
    }

    /** record_choice: append one record for the image under the cursor
        (or "Unknown" past the end) with the normalised label, the elapsed
        time and the timestamp; advance the cursor; stop the timer; close
        free-text entry. */
    method RecordChoice(choice: string, now: nat, stamp: string)
      modifies this
      ensures results == old(results) +
        [Record(ImageAt(images[..], old(currentIndex)), Normalize(choice), Elapsed(old(startTime), now), stamp)]
      ensures currentIndex == old(currentIndex) + 1
      ensures startTime == None && !customMode
      ensures page == old(page) && images == old(images)
    {
      results := results + [Record(ImageAt(images[..], currentIndex), Normalize(choice), Elapsed(startTime, now), stamp)];
      currentIndex := currentIndex + 1;
      startTime := None;
      customMode := false;
    }

    // -------------------------------------------------------------------
    // Page runs
    // -------------------------------------------------------------------

    /** A run of the countdown page: after the three ticks the page
        becomes the session page. Other pages are not affected. */
    method RunCountdownPage()
      modifies this
      ensures page == if old(page) == Countdown then Session else old(page)
      ensures images == old(images) && currentIndex == old(currentIndex) && results == old(results)
      ensures startTime == old(startTime) && customMode == old(customMode)
    {
      if page == Countdown {
        page := Session;
      }
    }

    /** A run of the session page up to its buttons: with the deck used up
        it turns to the results page; otherwise it starts the timer at
        `now` unless one already runs. */
    method RunSessionPage(now: nat)
      modifies this
      ensures page == if old(page) == Session && currentIndex >= images.Length then Results else old(page)
      ensures startTime ==
        if old(page) == Session && currentIndex < images.Length && old(startTime).None?
        then Some(now) else old(startTime)
      ensures images == old(images) && currentIndex == old(currentIndex) && results == old(results)
      ensures customMode == old(customMode)
    {
      if page == Session {
        if currentIndex >= images.Length {
          page := Results;
        } else if startTime.None? {
          startTime := Some(now);
        }
      }
    }

    // -------------------------------------------------------------------
    // Events
    // -------------------------------------------------------------------

    /** The home button, shown on every page but the landing page (during
        the countdown too, where a click cuts the countdown short): a full
        reset. */
    method ClickHome()
      requires Valid() && Settled()
      modifies this, images
      ensures Valid() && Settled()
      ensures images == old(images)
      ensures multiset(images[..]) == old(multiset(images[..]))
      ensures old(page) != Landing ==>
        page == Landing && currentIndex == 0 && results == [] && startTime == None && !customMode
      ensures old(page) == Landing ==> unchanged(this) && unchanged(images)
    {
      if page != Landing {
        GoHome();
      }
    }

    /** "Initialize Session" on the landing page: the countdown starts. */
    method ClickInitialize()
      requires Valid() && Settled()
      modifies this
      ensures Valid() && Settled()
      ensures page == if old(page) == Landing then Countdown else old(page)
      ensures images == old(images) && currentIndex == old(currentIndex) && results == old(results)
      ensures startTime == old(startTime) && customMode == old(customMode)
    {
      if page == Landing {
        StartCountdown();
      }
    }

    /** The countdown runs out: the session page follows, which starts the
        timer at `now` on the first image, or turns to the results page
        when the deck is empty. */
    method FinishCountdown(now: nat)
      requires Valid() && Settled()
      modifies this
      ensures Valid() && Settled()
      ensures images == old(images) && currentIndex == old(currentIndex) && results == old(results)
      ensures customMode == old(customMode)
      ensures old(page) == Countdown ==>
        if images.Length == 0 then page == Results && startTime == None
        else page == Session && startTime == Some(now)
      ensures old(page) != Countdown ==> page == old(page) && startTime == old(startTime)
    {
      if page == Countdown {
        RunCountdownPage();
        RunSessionPage(now);
      }
    }

    /** A fixed answer ("Normal" or "Tumor") given on the session page in
        standard input mode: the answer is recorded at `now`; the next run
        of the page starts the timer for the next image at `next`, or
        turns to the results page after the last image. */
    method ClickAnswer(answer: string, now: nat, stamp: string, next: nat)
      requires answer == "Normal" || answer == "Tumor"
      requires Valid() && Settled()
      modifies this
      ensures Valid() && Settled()
      ensures old(page) == Session && !old(customMode) ==> AnsweredNext(answer, now, stamp, next)
      ensures old(page) == Session && !old(customMode) && old(startTime).Some? && old(startTime).value <= now ==>
        results[|results| - 1].timeMs >= 0
      ensures !(old(page) == Session && !old(customMode)) ==> unchanged(this)
    {
      if page == Session && !customMode {
        RecordAndRerun(answer, now, stamp, next);
      }
    }

    /** record_choice on the session page followed by the rerun of the
        page, shared by the fixed answers and the free-text form. */
    method RecordAndRerun(choice: string, now: nat, stamp: string, next: nat)
      requires Valid() && Settled() && page == Session
      modifies this
      ensures Valid() && Settled()
      ensures AnsweredNext(choice, now, stamp, next)
    {
      ghost var before := results;
      RecordChoice(choice, now, stamp);
      ghost var added := results[|before|];
      assert results == before + [added];
      RecordsFollowDeck(before, images[..], added);
      RunSessionPage(next);
    }

    /** "Other..." in standard input mode opens free-text entry; nothing
        else changes. */
    method ClickOther()
      requires Valid() && Settled()
      modifies this
      ensures Valid() && Settled()
      ensures customMode == (old(page) == Session || old(customMode))
      ensures page == old(page) && images == old(images)
      ensures currentIndex == old(currentIndex) && results == old(results) && startTime == old(startTime)
    {
      if page == Session && !customMode {
        customMode := true;
      }
    }

    /** "Confirm Diagnosis" in free-text mode: the typed text is recorded,
        as for a fixed answer. */
    method SubmitCustom(text: string, now: nat, stamp: string, next: nat)
      requires Valid() && Settled()
      modifies this
      ensures Valid() && Settled()
      ensures old(page) == Session && old(customMode) ==> AnsweredNext(text, now, stamp, next)
      ensures old(page) == Session && old(customMode) && old(startTime).Some? && old(startTime).value <= now ==>
        results[|results| - 1].timeMs >= 0
      ensures !(old(page) == Session && old(customMode)) ==> unchanged(this)
    {
      if page == Session && customMode {
        RecordAndRerun(text, now, stamp, next);
      }
    }

    /** "Cancel / Back" in free-text mode closes it; the timer keeps
        running and nothing is recorded. */
    method ClickCancel()
      requires Valid() && Settled()
      modifies this
      ensures Valid() && Settled()
      ensures !customMode
      ensures page == old(page) && images == old(images)
      ensures currentIndex == old(currentIndex) && results == old(results) && startTime == old(startTime)
    {
      if page == Session && customMode {
        customMode := false;
      }
    }

    /** "Start New Assessment" on the results page: a full reset. */
    method ClickStartNew()
      requires Valid() && Settled()
      modifies this, images
      ensures Valid() && Settled()
      ensures images == old(images)
      ensures multiset(images[..]) == old(multiset(images[..]))
      ensures old(page) == Results ==>
        page == Landing && currentIndex == 0 && results == [] && startTime == None && !customMode
      ensures old(page) != Results ==> unchanged(this) && unchanged(images)
    {
      if page == Results {
        GoHome();
      }
    }

    /** The state after answering `choice` at `now` on the session page
        and re-running it at `next`: one more record, about the image that
        was showing, with the normalised label and the time since the
        timer started; the cursor one further on; standard input; and
        either the next image with its timer started at `next`, or the
        results page after the last image. */
    twostate predicate AnsweredNext(choice: string, now: nat, stamp: string, next: nat)
      reads this, images
    {
      && images == old(images)
      && old(currentIndex) < images.Length
      && results == old(results) +
           [Record(images[old(currentIndex)], Normalize(choice), Elapsed(old(startTime), now), stamp)]
      && currentIndex == old(currentIndex) + 1
      && !customMode
      && (if currentIndex < images.Length
          then page == Session && startTime == Some(next)
          else page == Results && startTime == None)
    }
  }
}
