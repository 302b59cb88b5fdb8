/**
 * `naukri_job_auto_apply.py`: searches Naukri for iOS roles keyword by
 * keyword, applies to relevant jobs, and keeps a ledger of applied job IDs
 * so that no job is applied to twice, across sessions.
 */
module JobAutoApply {
  import opened Common
  import opened Text
  import opened Browser

  // ---------------------------------------------------------------------
  // Job IDs

  const JobListings: string := "job-listings-"
  const JobPath: string := "/job/"

  /**
   * `extract_job_id`: the text after the first `job-listings-` (or else
   * after the first `/job/`, or else after the last `/`), up to the next
   * occurrence of that marker and then cut at the first `?`.
   */
  function ExtractJobId(url: string): (id: string)
  {
    if Contains(url, JobListings) then
      SplitSecond(url, JobListings);
      Split(Split(url, JobListings)[1], "?")[0]
    else if Contains(url, JobPath) then
      SplitSecond(url, JobPath);
      Split(Split(url, JobPath)[1], "?")[0]
    else
      var segments := Split(url, "/");
      Split(segments[|segments| - 1], "?")[0]
  }

  /** The text after the first occurrence of `marker`, up to its next occurrence. */
  function AfterFirst(url: string, marker: string): string
    requires marker != [] && Contains(url, marker)
  {
    PrefixBefore(url[IndexOf(url, marker).value + |marker|..], marker)
  }

  /** With `job-listings-` in the URL, that branch decides, whatever else the URL holds. */
  lemma ExtractJobIdListings(url: string)
    requires Contains(url, JobListings)
    ensures ExtractJobId(url) == PrefixBefore(AfterFirst(url, JobListings), "?")
  {
    SplitSecond(url, JobListings);
    SplitFirst(Split(url, JobListings)[1], "?");
  }

  /** Without `job-listings-`, a `/job/` in the URL decides. */
  lemma ExtractJobIdJobPath(url: string)
    requires !Contains(url, JobListings) && Contains(url, JobPath)
    ensures ExtractJobId(url) == PrefixBefore(AfterFirst(url, JobPath), "?")
  {
    SplitSecond(url, JobPath);
    SplitFirst(Split(url, JobPath)[1], "?");
  }

  /**
   * Otherwise the ID comes from the last path segment: the suffix of the
   * URL after its last `/` (the whole URL when it has none), cut at `?`.
   */
  lemma ExtractJobIdLastSegment(url: string)
    requires !Contains(url, JobListings) && !Contains(url, JobPath)
    ensures exists n :: (0 <= n <= |url| && (n == 0 || url[n - 1] == '/') && !Contains(url[n..], "/")
                          && ExtractJobId(url) == PrefixBefore(url[n..], "?"))
  {
    var last := LastPart(url, "/");
    ExtractJobIdIsLastPart(url);
    LastPartSuffix(url, "/");
    LastPartAfterSep(url, "/");
    var n := |url| - |last|;
    assert url[n..] == last;
    if n > 0 {
      assert url[n - 1..n] == "/";
      assert url[n - 1] == url[n - 1..n][0];
    }
  }

  lemma ExtractJobIdIsLastPart(url: string)
    requires !Contains(url, JobListings) && !Contains(url, JobPath)
    ensures ExtractJobId(url) == PrefixBefore(LastPart(url, "/"), "?")
  {
    LastPartIsLast(url, "/");
    SplitFirst(LastPart(url, "/"), "?");
  }

  /** An extracted ID never contains `?`: the query string is always cut off. */
  lemma ExtractJobIdHasNoQuery(url: string)
    ensures !Contains(ExtractJobId(url), "?")
  {
    if Contains(url, JobListings) {
      ExtractJobIdListings(url);
      PrefixBeforeProps(AfterFirst(url, JobListings), "?");
    } else if Contains(url, JobPath) {
      ExtractJobIdJobPath(url);
      PrefixBeforeProps(AfterFirst(url, JobPath), "?");
    } else {
      ExtractJobIdLastSegment(url);
      var n :| 0 <= n <= |url| && (n == 0 || url[n - 1] == '/') && !Contains(url[n..], "/")
        && ExtractJobId(url) == PrefixBefore(url[n..], "?");
      PrefixBeforeProps(url[n..], "?");
    }
  }

  /** An ID found after `job-listings-` never runs into a second `job-listings-`. */
  lemma ExtractJobIdStopsAtMarker(url: string)
    requires Contains(url, JobListings)
    ensures !Contains(ExtractJobId(url), JobListings)
  {
    ExtractJobIdListings(url);
    var after := AfterFirst(url, JobListings);
    PrefixBeforeProps(url[IndexOf(url, JobListings).value + |JobListings|..], JobListings);
    PrefixBeforeProps(after, "?");
    NotContainsPrefix(after, |PrefixBefore(after, "?")|, JobListings);
  }

  // ---------------------------------------------------------------------
  // Relevance

  const IosTerms: seq<string> := ["ios", "iphone", "swift", "objective-c", "xcode", "cocoa"]
  const ExcludeTerms: seq<string> := ["android", "java", "backend", "devops", "qa", "testing", "manual"]

  /** `is_ios_relevant`: some iOS term and no excluded term in the lower-cased title. */
  predicate IsIosRelevant(title: string)
  {
    AnyIn(IosTerms, Lower(title)) && !AnyIn(ExcludeTerms, Lower(title))
  }

  /** The test ignores letter case. */
  lemma IosRelevantIgnoresCase(title: string)
    ensures IsIosRelevant(Lower(title)) <==> IsIosRelevant(title)
  {
    LowerIdempotent(title);
  }

  /** A title with an excluded term is never relevant, whatever iOS terms it holds. */
  lemma ExcludedTermWins(title: string, k: nat)
    requires k < |ExcludeTerms| && Contains(Lower(title), ExcludeTerms[k])
    ensures !IsIosRelevant(title)
  {
  }

  /** A title with an iOS term and none of the excluded ones is relevant. */
  lemma IosTermSuffices(title: string, k: nat)
    requires k < |IosTerms| && Contains(Lower(title), IosTerms[k])
    requires forall j :: 0 <= j < |ExcludeTerms| ==> !Contains(Lower(title), ExcludeTerms[j])
    ensures IsIosRelevant(title)
  {
  }

  // ---------------------------------------------------------------------
  // The ledger and its counters

  datatype Job = Job(id: string, title: string, company: string, experience: string, location: string)

  /**
   * What the browser answers while `apply_to_job` runs: whether the
   * scroll scripts succeed, the job card's own subtree, and the page once
   * the details are open.
   */
  datatype ApplyScene = ApplyScene(scrollOk: bool, card: Page, page: Page)

  const ApplyButtons: Locator := Locator(CssSelector, ".apply-button, .btn-apply, [data-ga-track='Apply'], .applyButton")
  const TitleLink: Locator := Locator(CssSelector, ".title a, .jobTupleHeader .ellipsis")

  /** How one call of `apply_to_job` ends for a job that was not applied to before. */
  datatype Outcome = Applied | NoButton | Failed

  /** A native click on `e` goes through. */
  predicate Clicks(e: WebElement)
  {
    !e.stale && e.interactable
  }

  function ApplyOutcome(scene: ApplyScene): Outcome
  {
    if !scene.scrollOk || ApplyButtons !in scene.card then Failed
    else
      var inCard := scene.card[ApplyButtons];
      var buttons :=
        if inCard != [] then Some(inCard)
        else match FindElement(scene.card, TitleLink)
          case None => None
          case Some(link) =>
            if !Clicks(link) || ApplyButtons !in scene.page then None
            else Some(scene.page[ApplyButtons]);
      match buttons
      case None => Failed
      case Some(bs) =>
        if bs == [] then NoButton
        else if Clicks(bs[0]) then Applied
        else Failed
  }

  /** The applied-job set and the session counters. */
  datatype Ledger = Ledger(applied: set<string>, found: nat, jobsApplied: nat, skipped: nat, errors: nat)

  /** `apply_to_job` on the ledger: the new ledger and the returned flag. */
  function ApplyStep(l: Ledger, job: Job, scene: ApplyScene): (Ledger, bool)
  {
    if job.id in l.applied then (l.(skipped := l.skipped + 1), false)
    else match ApplyOutcome(scene)
      case Applied => (l.(applied := l.applied + {job.id}, jobsApplied := l.jobsApplied + 1), true)
      case NoButton => (l.(skipped := l.skipped + 1), false)
      case Failed => (l.(errors := l.errors + 1), false)
  }

  /** A job already in the ledger is skipped: no click, and only `jobs_skipped` moves. */
  lemma ApplyStepAlreadyApplied(l: Ledger, job: Job, scene: ApplyScene)
    requires job.id in l.applied
    ensures ApplyStep(l, job, scene) == (l.(skipped := l.skipped + 1), false)
  {
  }

  /**
   * Each call moves exactly one of applied / skipped / errors by one; it
   * returns True exactly when the ID joins the ledger; no ID ever leaves it.
   */
  lemma ApplyStepAccounting(l: Ledger, job: Job, scene: ApplyScene)
    ensures var (l', ok) := ApplyStep(l, job, scene);
      l'.jobsApplied + l'.skipped + l'.errors == l.jobsApplied + l.skipped + l.errors + 1
      && l'.found == l.found
      && l.applied <= l'.applied
      && (ok <==> l'.jobsApplied == l.jobsApplied + 1)
      && (ok <==> job.id !in l.applied && l'.applied == l.applied + {job.id})
      && (!ok ==> l'.applied == l.applied)
  {
  }

  /** Ledger invariant: the set holds the loaded IDs plus one new ID per application. */
  predicate Tracks(l: Ledger, loaded: set<string>)
  {
    loaded <= l.applied && |l.applied| == |loaded| + l.jobsApplied
  }

  lemma ApplyStepTracks(l: Ledger, loaded: set<string>, job: Job, scene: ApplyScene)
    requires Tracks(l, loaded)
    ensures Tracks(ApplyStep(l, job, scene).0, loaded)
  {
  }

  /** One job listing: the data read from its card, and the browser's answers while applying. */
  datatype Listing = Listing(job: Job, scene: ApplyScene)

  /** One keyword: whether `search_ios_jobs` succeeded, and the listings found. */
  datatype Search = Search(ok: bool, listings: seq<Listing>)

  const IosKeywords: seq<string> := [
    "iOS Developer", "iOS Engineer", "SDE iOS", "Software Engineer iOS",
    "Mobile Developer iOS", "iOS Application Developer", "Senior iOS Developer", "iOS Swift Developer"]

  /** The inner `for job in jobs` loop: the new ledger and `applications_made`. */
  function ProcessJobs(l: Ledger, made: int, max: int, jobs: seq<Listing>): (Ledger, int)
    decreases |jobs|
  {
    if jobs == [] || made >= max then (l, made)
    else if IsIosRelevant(jobs[0].job.title) then
      var (l', ok) := ApplyStep(l, jobs[0].job, jobs[0].scene);
      ProcessJobs(l', if ok then made + 1 else made, max, jobs[1..])
    else ProcessJobs(l.(skipped := l.skipped + 1), made, max, jobs[1..])
  }

  /** The outer `for keyword in self.ios_keywords` loop. */
  function ProcessSearches(l: Ledger, made: int, max: int, searches: seq<Search>): (Ledger, int)
    decreases |searches|
  {
    if searches == [] || made >= max then (l, made)
    else if !searches[0].ok then ProcessSearches(l, made, max, searches[1..])
    else
      var jobs := searches[0].listings;
      var (l', made') := ProcessJobs(l.(found := l.found + |jobs|), made, max, jobs);
      ProcessSearches(l', made', max, searches[1..])
  }

  /** What the session keeps: the cap, applications counted once, the ledger's invariant. */
  ghost predicate RunKeeps(l: Ledger, made: int, l': Ledger, made': int, loaded: set<string>)
  {
    made' - made == l'.jobsApplied - l.jobsApplied
    && made <= made'
    && l.applied <= l'.applied
    && (Tracks(l, loaded) ==> Tracks(l', loaded))
  }

  function max0(x: int): int { if x > 0 then x else 0 }

  lemma {:induction false} ProcessJobsKeeps(l: Ledger, made: int, max: int, jobs: seq<Listing>, loaded: set<string>)
    ensures var (l', made') := ProcessJobs(l, made, max, jobs);
      RunKeeps(l, made, l', made', loaded)
      && (made <= max ==> made' <= max)
      && (made >= max ==> made' == made)
    decreases |jobs|
  {
    if jobs != [] && made < max {
      if IsIosRelevant(jobs[0].job.title) {
        var (l1, ok) := ApplyStep(l, jobs[0].job, jobs[0].scene);
        ApplyStepAccounting(l, jobs[0].job, jobs[0].scene);
        if Tracks(l, loaded) {
          ApplyStepTracks(l, loaded, jobs[0].job, jobs[0].scene);
        }
        ProcessJobsKeeps(l1, if ok then made + 1 else made, max, jobs[1..], loaded);
      } else {
        ProcessJobsKeeps(l.(skipped := l.skipped + 1), made, max, jobs[1..], loaded);
      }
    }
  }

  /**
   * `applications_made` never passes `max_applications` (and stays 0 when
   * the cap is not positive); it always equals the rise of `jobs_applied`.
   */
  lemma {:induction false} ProcessSearchesKeeps(l: Ledger, made: int, max: int, searches: seq<Search>, loaded: set<string>)
    ensures var (l', made') := ProcessSearches(l, made, max, searches);
      RunKeeps(l, made, l', made', loaded)
      && (made <= max ==> made' <= max)
      && (made >= max ==> made' == made)
    decreases |searches|
  {
    if searches != [] && made < max {
      if !searches[0].ok {
        ProcessSearchesKeeps(l, made, max, searches[1..], loaded);
      } else {
        var jobs := searches[0].listings;
        var l0 := l.(found := l.found + |jobs|);
        var (l1, made1) := ProcessJobs(l0, made, max, jobs);
        ProcessJobsKeeps(l0, made, max, jobs, loaded);
        ProcessSearchesKeeps(l1, made1, max, searches[1..], loaded);
      }
    }
  }

  /** From `applications_made = 0`, the session applies to at most `max(max_applications, 0)` jobs. */
  lemma RunCap(l: Ledger, max: int, searches: seq<Search>)
    ensures var (l', made) := ProcessSearches(l, 0, max, searches);
      0 <= made <= max0(max) && made == l'.jobsApplied - l.jobsApplied
  {
    ProcessSearchesKeeps(l, 0, max, searches, {});
  }

  // ---------------------------------------------------------------------
  // The history file

  /**
   * `applied_jobs_history.json` as `load_application_history` finds it:
   * absent, unreadable or not JSON, or a JSON object with or without the
   * `applied_jobs` key.
   */
  datatype HistoryFile = Absent | Unreadable | Stored(ids: Option<seq<string>>)

  function SetOf(ids: seq<string>): set<string>
  {
    set i | 0 <= i < |ids| :: ids[i]
  }

  predicate NoDuplicates(ids: seq<string>)
  {
    forall i, j :: 0 <= i < j < |ids| ==> ids[i] != ids[j]
  }

  /** The set that loading leaves in `applied_jobs` (it starts as the empty set). */
  function LoadedIds(f: HistoryFile): (s: set<string>)
    ensures f.Stored? && f.ids.Some? ==> s == SetOf(f.ids.value)
    ensures !(f.Stored? && f.ids.Some?) ==> s == {}
  {
    match f
    case Stored(Some(ids)) => SetOf(ids)
    case _ => {}
  }

  lemma SetOfSnoc(ids: seq<string>, x: string)
    ensures SetOf(ids + [x]) == SetOf(ids) + {x}
  {
    var all := ids + [x];
    forall y | y in SetOf(all) ensures y in SetOf(ids) + {x} {
      var i :| 0 <= i < |all| && all[i] == y;
      if i < |ids| {
        assert ids[i] == y;
      }
    }
    forall y | y in SetOf(ids) ensures y in SetOf(all) {
      var i :| 0 <= i < |ids| && ids[i] == y;
      assert all[i] == y;
    }
    assert all[|ids|] == x;
  }

  /** A list without duplicates has as many entries as its set has elements. */
  lemma {:induction false} NoDuplicatesCard(ids: seq<string>)
    requires NoDuplicates(ids)
    ensures |SetOf(ids)| == |ids|
  {
    if ids != [] {
      var init := ids[..|ids| - 1];
      var x := ids[|ids| - 1];
      assert NoDuplicates(init);
      NoDuplicatesCard(init);
      assert init + [x] == ids;
      SetOfSnoc(init, x);
      assert x !in SetOf(init);
    }
  }

  /** Saving then loading gives the same set of IDs, and the list is as long as the set. */
  lemma SaveLoadRoundTrip(applied: set<string>, ids: seq<string>)
    requires NoDuplicates(ids) && SetOf(ids) == applied
    ensures LoadedIds(Stored(Some(ids))) == applied
    ensures |ids| == |applied|
  {
    NoDuplicatesCard(ids);
  }

  /** The script object: the ledger, the counters, and the IDs loaded at start. */
  class AutoApply {
    var appliedJobs: set<string>
    var jobsFound: nat
    var jobsApplied: nat
    var jobsSkipped: nat
    var errors: nat
    ghost var loaded: set<string>

    function Snapshot(): Ledger
      reads this
    {
      Ledger(appliedJobs, jobsFound, jobsApplied, jobsSkipped, errors)
    }

    ghost predicate Valid()
      reads this
    {
      Tracks(Snapshot(), loaded)
    }

    /** `__init__` with `load_application_history`. */
    constructor (history: HistoryFile)
      ensures Valid()
      ensures appliedJobs == LoadedIds(history) && loaded == appliedJobs
      ensures jobsFound == 0 && jobsApplied == 0 && jobsSkipped == 0 && errors == 0
    {
      appliedJobs := LoadedIds(history);
      loaded := LoadedIds(history);
      jobsFound, jobsApplied, jobsSkipped, errors := 0, 0, 0, 0;
    }

    method ApplyToJob(job: Job, scene: ApplyScene) returns (ok: bool)
      requires Valid()
      modifies this
      ensures Valid() && loaded == old(loaded)
      ensures (Snapshot(), ok) == ApplyStep(old(Snapshot()), job, scene)
    {
      ApplyStepTracks(Snapshot(), loaded, job, scene);
      if job.id in appliedJobs {
        jobsSkipped := jobsSkipped + 1;
        return false;
      }
      if !scene.scrollOk || ApplyButtons !in scene.card {
        errors := errors + 1;
        return false;
      }
      var buttons := scene.card[ApplyButtons];
      if buttons == [] {
        var link := FindElement(scene.card, TitleLink);
        if link.None? || !Clicks(link.value) || ApplyButtons !in scene.page {
          errors := errors + 1;
          return false;
        }
        buttons := scene.page[ApplyButtons];
      }
      if buttons != [] {
        if !Clicks(buttons[0]) {
          errors := errors + 1;
          return false;
        }
        appliedJobs := appliedJobs + {job.id};
        jobsApplied := jobsApplied + 1;
        return true;
      }
      jobsSkipped := jobsSkipped + 1;
      return false;
    }

    /** The inner `for job in job_listings` loop of one search, breaking at the cap. */
    method ApplyToListings(max: int, made0: int, jobs: seq<Listing>) returns (made: int)
      requires Valid()
      modifies this
      ensures Valid() && loaded == old(loaded)
      ensures (Snapshot(), made) == ProcessJobs(old(Snapshot()), made0, max, jobs)
    {
      ghost var start := Snapshot();
      made := made0;
      var j := 0;
      while j < |jobs|
        invariant 0 <= j <= |jobs|
        invariant Valid() && loaded == old(loaded)
        invariant ProcessJobs(start, made0, max, jobs) == ProcessJobs(Snapshot(), made, max, jobs[j..])
      {
        assert jobs[j..][1..] == jobs[j + 1..];
        if made >= max {
          break;
        }
        if IsIosRelevant(jobs[j].job.title) {
          var ok := ApplyToJob(jobs[j].job, jobs[j].scene);
          if ok {
            made := made + 1;
          }
        } else {
          jobsSkipped := jobsSkipped + 1;
        }
        j := j + 1;
      }
    }

    /**
     * `run_job_search_and_apply` after a successful login check: one search
     * per keyword, in order, until `max_applications` applications are made.
     */
    method RunJobSearchAndApply(max: int, searches: seq<Search>) returns (made: int)
      requires Valid()
      requires |searches| == |IosKeywords|
      modifies this
      ensures Valid() && loaded == old(loaded)
      ensures (Snapshot(), made) == ProcessSearches(old(Snapshot()), 0, max, searches)
      ensures 0 <= made <= max0(max) && made == jobsApplied - old(jobsApplied)
    {
      ghost var start := Snapshot();
      RunCap(start, max, searches);
      made := 0;
      var k := 0;
      while k < |searches|
        invariant 0 <= k <= |searches|
        invariant Valid() && loaded == old(loaded)
        invariant ProcessSearches(start, 0, max, searches) == ProcessSearches(Snapshot(), made, max, searches[k..])
      {
        assert searches[k..][1..] == searches[k + 1..];
        if made >= max {
          break;
        }
        if searches[k].ok {
          var jobs := searches[k].listings;
          jobsFound := jobsFound + |jobs|;
          made := ApplyToListings(max, made, jobs);
        }
        k := k + 1;
      }
    }

    /** `save_application_history`: the ledger written out as a list, each ID once. */
    method SaveHistory() returns (ids: seq<string>)
      ensures NoDuplicates(ids) && SetOf(ids) == appliedJobs
      ensures LoadedIds(Stored(Some(ids))) == appliedJobs
    {
      ids := [];
      var rest := appliedJobs;
      while rest != {}
        invariant rest <= appliedJobs
        invariant NoDuplicates(ids)
        invariant SetOf(ids) == appliedJobs - rest
        decreases |rest|
      {
        var x :| x in rest;
        SetOfSnoc(ids, x);
        ids := ids + [x];
        rest := rest - {x};
      }
    }
  }
}
