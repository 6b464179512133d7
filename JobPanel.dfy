/** The Job panel (`JobPanel` in panels/Job.js): the job it shows, the re-run
    and job-control menu items it offers, the termination flag and the status
    levels it merges from completion events. */
module JobPanels {
  import opened Js
  import opened Strings
  import opened Wrappers
  import opened RerunLists
  import opened JobArguments
  import opened JobStatus

  /** `info.Target`: a list of minion ids, some other pattern, or absent. */
  datatype Target = ListTarget(ids: seq<string>) | PatternTarget(pattern: string) | NoTarget

  /** The job description returned by `runners.jobs.list_job`. */
  datatype JobInfo = JobInfo(
    fun: string,                  // info.Function
    arguments: Value,             // info.Arguments
    targetType: string,           // info["Target-type"]
    target: Target,               // info.Target
    minions: Option<seq<string>>, // info.Minions, None when undefined
    result: Results,              // info.Result
    resultKeys: seq<string>,      // Object.keys(info.Result), in the runtime's order
    error: string)                // info.Error, "" when absent

  /** What `Object.keys` guarantees: each key of the result once. */
  ghost predicate KeysListed(info: JobInfo) {
    (forall i, j :: 0 <= i < j < |info.resultKeys| ==> info.resultKeys[i] != info.resultKeys[j]) &&
    (forall k :: k in info.resultKeys <==> k in info.result)
  }

  /** The payload handed to `_handleJobRunnerJobsListJob`. */
  datatype JobListReply =
    | NoReply                      // a falsy payload
    | TransportError(msg: string)  // the error text passed instead of an object
    | NotAJob(text: string)        // `return[0]` is not an object
    | Job(info: JobInfo)

  /** The minions the output is laid out for. */
  datatype Roster = Listed(ids: seq<string>) | Wheel | Runner | FromResult(ids: seq<string>)

  function RosterIds(r: Roster): seq<string> {
    match r
    case Listed(ids) => ids
    case Wheel => ["WHEEL"]
    case Runner => ["RUNNER"]
    case FromResult(ids) => ids
  }

  /** The explicit roster when there is one; otherwise one pseudo-minion for
      wheel and runner functions; otherwise the minions that answered. */
  function ChooseRoster(minions: Option<seq<string>>, fun: string, resultKeys: seq<string>): (r: Roster)
    ensures minions.Some? ==> r == Listed(minions.value)
    ensures minions.None? && StartsWith(fun, "wheel.") ==> r == Wheel
    ensures minions.None? && !StartsWith(fun, "wheel.") && StartsWith(fun, "runners.") ==> r == Runner
    ensures minions.None? && !StartsWith(fun, "wheel.") && !StartsWith(fun, "runners.") ==> r == FromResult(resultKeys)
  {
    if minions.Some? then Listed(minions.value)
    else if StartsWith(fun, "wheel.") then Wheel
    else if StartsWith(fun, "runners.") then Runner
    else FromResult(resultKeys)
  }

  /** Without a roster the output is laid out for the minions that answered,
      so it can show no minion as missing. */
  lemma FallbackRosterHasNoMissing(info: JobInfo)
    requires KeysListed(info)
    ensures ChooseRoster(info.minions, info.fun, info.resultKeys).FromResult? ==>
      NonRespondingMinions(RosterIds(ChooseRoster(info.minions, info.fun, info.resultKeys)), info.result) == []
  {
    var r := ChooseRoster(info.minions, info.fun, info.resultKeys);
    if r.FromResult? {
      AllAnsweredNoneMissing(r.ids, info.result);
    }
  }

  /** `jobIsTerminated` at load: no roster, or at least as many answers as roster entries. */
  predicate InitiallyTerminated(minions: Option<seq<string>>, answers: nat) {
    minions.None? || answers >= |minions.value|
  }

  /** When the roster has no duplicates and every answer comes from a roster
      member, counting answers is the same as checking that no minion is missing. */
  lemma InitiallyTerminatedMeansAllAnswered(info: JobInfo)
    requires KeysListed(info) && info.minions.Some?
    requires forall i, j :: 0 <= i < j < |info.minions.value| ==> info.minions.value[i] != info.minions.value[j]
    requires forall k :: k in info.result ==> k in info.minions.value
    ensures InitiallyTerminated(info.minions, |info.resultKeys|) <==>
      NonRespondingMinions(info.minions.value, info.result) == []
  {
    var roster := info.minions.value;
    DistinctCard(info.resultKeys);
    DistinctCard(roster);
    var keys := set k | k in info.resultKeys;
    var members := set m | m in roster;
    assert keys == info.result.Keys;
    assert keys <= members;
    var n := NonRespondingMinions(roster, info.result);
    if |info.resultKeys| >= |roster| {
      assert |keys| >= |members|;
      SubsetCardEqual(keys, members);
      AllAnsweredNoneMissing(roster, info.result);
    } else {
      assert |keys| < |members|;
      assert keys != members;
      var m :| m in members && m !in keys;
      assert m in n;
    }
  }

  lemma {:induction false} DistinctCard(s: seq<string>)
    requires forall i, j :: 0 <= i < j < |s| ==> s[i] != s[j]
    ensures |set x | x in s| == |s|
  {
    if s != [] {
      var rest := s[1..];
      assert forall i, j :: 0 <= i < j < |rest| ==> rest[i] != rest[j] by {
        forall i, j | 0 <= i < j < |rest| ensures rest[i] != rest[j] {
          assert rest[i] == s[i + 1] && rest[j] == s[j + 1];
        }
      }
      DistinctCard(rest);
      assert (set x | x in s) == (set x | x in rest) + {s[0]};
      assert s[0] !in (set x | x in rest);
    }
  }

  lemma SubsetCardEqual(a: set<string>, b: set<string>)
    requires a <= b && |a| >= |b|
    ensures a == b
  {
    if a != b {
      var x :| x in b && x !in a;
      SubsetCard(a, b - {x});
    }
  }

  lemma {:induction false} SubsetCard(a: set<string>, b: set<string>)
    requires a <= b
    ensures |a| <= |b|
    decreases |b|
  {
    if b != {} {
      var y :| y in b;
      SubsetCard(a - {y}, b - {y});
    }
  }

  /** What the "active jobs" snapshot did to the summary field. */
  datatype ActiveSummary =
    | SummaryMissing         // the summary element is not shown
    | SummaryError(msg: string)
    | SummaryDone
    | SummaryActive(count: nat)

  /** One running job in the snapshot: a `{minion: pid}` object per process. */
  datatype ActiveJob = ActiveJob(running: seq<Props>)

  /** The payload handed to `_handleRunnerJobsActive`. */
  datatype ActiveReply = ActiveError(msg: string) | ActiveJobs(jobs: map<string, ActiveJob>)

  /** What loading the job did to the view. */
  datatype LoadOutcome =
    | NotLoaded                        // a falsy payload: nothing happens
    | ErrorCell(msg: string)           // title ERROR, the message in an error cell
    | ErrorText(text: string)          // title ERROR, the text as the output
    | Loaded(roster: Roster, initialStatus: string)

  /** The output text of a job that could not be shown: its id, a rule, the reason. */
  function ErrorReport(jid: string, reason: string): string {
    jid + "\n--------------------\n" + reason
  }

  /** The menu title for a re-run list: hidden when there is no list or the
      list is the empty string. */
  function RerunListTitle(lst: Option<string>, caption: string): (title: Option<string>)
    ensures title.Some? <==> lst.Some? && lst.value != ""
    ensures title.Some? ==> title.value == caption
  {
    if lst.None? || lst.value == "" then None else Some(caption)
  }

  /** A non-empty roster entry keeps its list's menu item visible. */
  lemma RerunListTitleShown(roster: seq<string>, caption: string)
    requires roster != [] && roster[0] != ""
    ensures RerunListTitle(Some(Join(roster)), caption) == Some(caption)
  {
    assert |Join(roster)| > 0 by {
      if |roster| > 1 {
        assert Join(roster) == roster[0] + "," + Join(roster[1..]);
      }
    }
  }

  /** A command handed to the command box: an edited text, or the words of a
      job-control call. */
  datatype Command = CommandLine(text: Option<string>) | CommandWords(words: seq<string>)

  /** What a menu action hands to `runCommand`: target type, target, command. */
  datatype RunRequest = RunRequest(targetType: Option<string>, target: Option<string>, command: Command)

  /** The job-control calls of the terminate, kill and signal items. */
  datatype JobControl = Terminate | Kill | Signal

  function JobControlCaption(kind: JobControl): string {
    match kind
    case Terminate => "Terminate job..."
    case Kill => "Kill job..."
    case Signal => "Signal job..."
  }

  function JobControlWords(kind: JobControl, jid: Option<string>): (words: seq<string>)
    ensures |words| >= 2 && words[1] == (if jid.Some? then jid.value else "")
    ensures kind == Signal <==> |words| == 4
    ensures kind == Terminate ==> words[0] == "saltutil.term_job"
    ensures kind == Kill ==> words[0] == "saltutil.kill_job"
    ensures kind == Signal ==> words[0] == "saltutil.signal_job" && words[2..] == ["signal=", "<signalnumber>"]
  {
    var id := if jid.Some? then jid.value else "";
    match kind
    case Terminate => ["saltutil.term_job", id]
    case Kill => ["saltutil.kill_job", id]
    case Signal => ["saltutil.signal_job", id, "signal=", "<signalnumber>"]
  }

  class JobPanel {
    var targetType: Option<string>
    var target: Option<string>
    var commandText: Option<string>
    var jobId: Option<string>
    var minions: Option<seq<string>>
    var result: Results
    /** `this.jobIsTerminated`: None is `undefined`. */
    var jobIsTerminated: Option<bool>
    /** The level of every displayed status element, by job id. */
    var statusLevel: Levels

    ghost predicate Valid()
      reads this
    {
      Bounded(statusLevel)
    }

    constructor ()
      ensures Valid()
      ensures targetType == None && target == None && commandText == None && jobId == None
      ensures minions == None && result == map[] && jobIsTerminated == None && statusLevel == map[]
    {
      targetType, target, commandText, jobId := None, None, None, None;
      minions, result, jobIsTerminated, statusLevel := None, map[], None, map[];
    }

    /** The start of `onShow`: the termination state is unknown again. */
    method BeginShow()
      modifies this`jobIsTerminated
      ensures jobIsTerminated == None
    {
      jobIsTerminated := None;
    }

    /** A status element for `jid` appears in the view without a level (the
      output formatter and the active-jobs summary create these elements; they
      are not part of this model). When one for `jid` is already shown,
      `querySelector` keeps finding that earlier one, so its level stays. */
    method DisplayStatus(jid: string)
      requires Valid()
      modifies this`statusLevel
      ensures Valid()
      ensures statusLevel == if jid in old(statusLevel) then old(statusLevel) else old(statusLevel)[jid := 0]
    {
      if jid !in statusLevel {
        statusLevel := statusLevel[jid := 0];
      }
    }

    /** `_handleJobRunnerJobsListJob`: every reply but a missing one replaces
      the text of the output, which removes the status elements it held; the
      error paths change nothing else that is modelled; a job stores its
      description, picks the roster and sets the termination flag. */
    method HandleJobRunnerJobsListJob(f: Formatter, reply: JobListReply, pJobId: string) returns (outcome: LoadOutcome)
      requires Valid()
      requires reply.Job? ==> KeysListed(reply.info)
      modifies this
      ensures Valid()
      ensures reply.NoReply? ==> statusLevel == old(statusLevel)
      ensures !reply.NoReply? ==> statusLevel == map[]
      ensures !(reply.Job? && reply.info.error == "") ==>
        targetType == old(targetType) && target == old(target) && commandText == old(commandText) &&
        jobId == old(jobId) && minions == old(minions) && result == old(result) &&
        jobIsTerminated == old(jobIsTerminated)
      ensures reply.NoReply? ==> outcome == NotLoaded
      ensures reply.TransportError? ==> outcome == ErrorCell(reply.msg)
      ensures reply.NotAJob? ==> outcome == ErrorText(ErrorReport(pJobId, reply.text))
      ensures reply.Job? && reply.info.error != "" ==> outcome == ErrorText(ErrorReport(pJobId, reply.info.error))
      ensures reply.Job? && reply.info.error == "" ==>
        var info := reply.info;
        && targetType == Some(info.targetType)
        && target == (match info.target
                      case ListTarget(ids) => Some(Join(ids))
                      case PatternTarget(p) => Some(p)
                      case NoTarget => None)
        && commandText == Some(info.fun + DecodedArguments(f, info.arguments))
        && jobId == Some(pJobId)
        && minions == info.minions
        && result == info.result
        && jobIsTerminated == Some(InitiallyTerminated(info.minions, |info.resultKeys|))
        && outcome == Loaded(ChooseRoster(info.minions, info.fun, info.resultKeys),
                             if InitiallyTerminated(info.minions, |info.resultKeys|) then "done" else "(loading)")
    {
      match reply
      case NoReply =>
        return NotLoaded;
      case TransportError(msg) =>
        statusLevel := map[];
        return ErrorCell(msg);
      case NotAJob(text) =>
        statusLevel := map[];
        return ErrorText(ErrorReport(pJobId, text));
      case Job(info) =>
        statusLevel := map[];
        if info.error != "" {
          return ErrorText(ErrorReport(pJobId, info.error));
        }
        var argumentsText := DecodeArgumentsArray(f, info.arguments);
        var text := info.fun + argumentsText;
        targetType := Some(info.targetType);
        match info.target {
          case ListTarget(ids) => target := Some(Join(ids));
          case PatternTarget(p) => target := Some(p);
          case NoTarget => target := None;
        }
        commandText := Some(text);
        jobId := Some(pJobId);
        minions := info.minions;
        result := info.result;
        var roster := ChooseRoster(info.minions, info.fun, info.resultKeys);
        var initialStatus;
        if info.minions.None? || |info.resultKeys| >= |info.minions.value| {
          initialStatus := "done";
          jobIsTerminated := Some(true);
        } else {
          initialStatus := "(loading)";
          jobIsTerminated := Some(false);
        }
        return Loaded(roster, initialStatus);
    }

    /** `_handleRunnerJobsActive`: a job missing from the snapshot is
      terminated, a listed one is not, and an error payload or a missing
      summary element leaves the flag alone. For a listed job the summary's
      text is replaced and a new status element for the job, without a
      level, is put in front of it. */
    method HandleRunnerJobsActive(pJobId: string, summaryShown: bool, reply: ActiveReply) returns (summary: ActiveSummary)
      requires Valid()
      modifies this`jobIsTerminated, this`statusLevel
      ensures Valid()
      ensures summaryShown && reply.ActiveJobs? && pJobId in reply.jobs ==> statusLevel == old(statusLevel)[pJobId := 0]
      ensures !(summaryShown && reply.ActiveJobs? && pJobId in reply.jobs) ==> statusLevel == old(statusLevel)
      ensures !summaryShown ==> summary == SummaryMissing && jobIsTerminated == old(jobIsTerminated)
      ensures summaryShown && reply.ActiveError? ==>
        summary == SummaryError(reply.msg) && jobIsTerminated == old(jobIsTerminated)
      ensures summaryShown && reply.ActiveJobs? && pJobId !in reply.jobs ==>
        summary == SummaryDone && jobIsTerminated == Some(true)
      ensures summaryShown && reply.ActiveJobs? && pJobId in reply.jobs ==>
        summary == SummaryActive(|reply.jobs[pJobId].running|) && jobIsTerminated == Some(false)
    {
      if !summaryShown {
        return SummaryMissing;
      }
      match reply
      case ActiveError(msg) =>
        return SummaryError(msg);
      case ActiveJobs(jobs) =>
        if pJobId !in jobs {
          jobIsTerminated := Some(true);
          return SummaryDone;
        }
        jobIsTerminated := Some(false);
        statusLevel := statusLevel[pJobId := 0];
        return SummaryActive(|jobs[pJobId].running|);
    }

    /** A click on the active-jobs summary: the output shows "loading..."
      instead of its status elements, and the panel is shown again, which
      starts with the termination state unknown. */
    method SummaryClicked()
      modifies this`statusLevel, this`jobIsTerminated
      ensures Valid()
      ensures statusLevel == map[] && jobIsTerminated == None
    {
      statusLevel := map[];
      BeginShow();
    }

    /** `handleSaltJobRetEvent`: the level of the event's job rises to the
      event's level when that job is displayed and the level is higher;
      the class it adds to the element is reported. */
    method HandleSaltJobRetEvent(ev: SaltJobRetEvent) returns (added: Option<string>)
      requires Valid()
      modifies this`statusLevel
      ensures Valid()
      ensures statusLevel == ApplyEvent(old(statusLevel), ev)
      ensures added.Some? <==> statusLevel != old(statusLevel)
      ensures added.Some? ==> added.value == ["host-success", "host-skips", "host-failed"][EventLevel(ev) - 1]
    {
      if ev.fun == Str("saltutil.find_job") {
        return None;
      }
      if ev.fun == Str("saltutil.running") {
        return None;
      }
      if ev.jid.None? || ev.jid.value == "" {
        return None;
      }
      var jid := ev.jid.value;
      var newLevel := 0;
      if ev.success == Bool(true) && ev.retcode == Num(0) {
        newLevel := 1;
      } else if ev.success == Bool(true) {
        newLevel := 2;
      } else {
        newLevel := 3;
      }
      if jid !in statusLevel {
        return None;
      }
      var oldLevel := statusLevel[jid];
      added := None;
      if newLevel > oldLevel {
        statusLevel := statusLevel[jid := newLevel];
        if newLevel == 1 {
          added := Some("host-success");
        } else if newLevel == 2 {
          added := Some("host-skips");
        } else if newLevel == 3 {
          added := Some("host-failed");
        }
      }
    }

    // -------------------------------------------------------------------------
    // The re-run target lists, as the source builds them

    /** `_listForRerunJobOnAllMinions`. */
    method ListForRerunJobOnAllMinions() returns (r: Option<string>)
      ensures r == AllMinionsTargets(minions)
    {
      if minions.None? {
        return None;
      }
      var ms := minions.value;
      var minionList := "";
      var i := 0;
      while i < |ms|
        invariant 0 <= i <= |ms|
        invariant minionList == Prefixed(ms[..i])
      {
        PrefixedAppend(ms[..i], ms[i]);
        assert ms[..i + 1] == ms[..i] + [ms[i]];
        minionList := minionList + "," + ms[i];
        i := i + 1;
      }
      assert ms[..i] == ms;
      PrefixedJoin(ms);
      if minionList == "" {
        return None;
      }
      PrefixedSingleton(ms);
      if minionList == "," + ms[0] {
        return None;
      }
      return Some(minionList[1..]);
    }

    /** `_listForRerunJobOnUnsuccessfulMinions`, with its two flags. */
    method ListForRerunJobOnUnsuccessfulMinions() returns (r: Option<string>)
      ensures r == UnsuccessfulTargets(minions, result)
    {
      if minions.None? {
        return None;
      }
      var ms := minions.value;
      var minionList := "";
      var has1 := false;
      var has2 := false;
      var i := 0;
      while i < |ms|
        invariant 0 <= i <= |ms|
        invariant minionList == Prefixed(UnsuccessfulMinions(ms[..i], result))
        invariant has1 <==> NonRespondingMinions(ms[..i], result) != []
        invariant has2 <==> FailedMinions(ms[..i], result) != []
      {
        var m := ms[i];
        assert ms[..i + 1] == ms[..i] + [m];
        ListsAppend(ms[..i], result, m);
        if m !in result {
          has1 := true;
        }
        if m in result && !IsResultOk(result[m]) {
          has2 := true;
        }
        if m !in result || !IsResultOk(result[m]) {
          PrefixedAppend(UnsuccessfulMinions(ms[..i], result), m);
          minionList := minionList + "," + m;
        }
        i := i + 1;
      }
      assert ms[..i] == ms;
      PrefixedJoin(UnsuccessfulMinions(ms, result));
      if minionList == "" {
        var fs := FailedMinions(ms, result);
        if fs != [] {
          assert fs[0] in fs;
          Classification(ms, result, fs[0]);
        }
        return None;
      }
      if !has1 || !has2 {
        return None;
      }
      return Some(minionList[1..]);
    }

    /** `_listForRerunJobOnFailedMinions`. */
    method ListForRerunJobOnFailedMinions() returns (r: Option<string>)
      ensures r == FailedTargets(minions, result)
    {
      if minions.None? {
        return None;
      }
      var ms := minions.value;
      var minionList := "";
      var i := 0;
      while i < |ms|
        invariant 0 <= i <= |ms|
        invariant minionList == Prefixed(FailedMinions(ms[..i], result))
      {
        var m := ms[i];
        assert ms[..i + 1] == ms[..i] + [m];
        ListsAppend(ms[..i], result, m);
        if m in result && !IsResultOk(result[m]) {
          PrefixedAppend(FailedMinions(ms[..i], result), m);
          minionList := minionList + "," + m;
        }
        i := i + 1;
      }
      assert ms[..i] == ms;
      PrefixedJoin(FailedMinions(ms, result));
      if minionList == "" {
        return None;
      }
      return Some(minionList[1..]);
    }

    /** `_listForRerunJobOnNonRespondingMinions`. */
    method ListForRerunJobOnNonRespondingMinions() returns (r: Option<string>)
      ensures r == NonRespondingTargets(minions, result)
    {
      if minions.None? {
        return None;
      }
      var ms := minions.value;
      var minionList := "";
      var i := 0;
      while i < |ms|
        invariant 0 <= i <= |ms|
        invariant minionList == Prefixed(NonRespondingMinions(ms[..i], result))
      {
        var m := ms[i];
        assert ms[..i + 1] == ms[..i] + [m];
        ListsAppend(ms[..i], result, m);
        if m !in result {
          PrefixedAppend(NonRespondingMinions(ms[..i], result), m);
          minionList := minionList + "," + m;
        }
        i := i + 1;
      }
      assert ms[..i] == ms;
      PrefixedJoin(NonRespondingMinions(ms, result));
      if minionList == "" {
        return None;
      }
      return Some(minionList[1..]);
    }

    // -------------------------------------------------------------------------
    // Menu item titles (None hides the item)

    /** "Re-run job...": hidden while there is neither a target nor a command. */
    function RerunJobTitle(): (title: Option<string>)
      reads this
      ensures title.None? <==>
        (target.None? || target.value == "") && (commandText.None? || commandText.value == "")
    {
      if (target.None? || target.value == "") && (commandText.None? || commandText.value == "") then None
      else Some("Re-run job...")
    }

    /** The terminate, kill and signal items are offered, with their captions,
      only while the job is known to be running: the flag is exactly `false`. */
    function JobControlTitle(kind: JobControl): (title: Option<string>)
      reads this
      ensures title.Some? <==> jobIsTerminated == Some(false)
      ensures title.Some? ==> title.value == JobControlCaption(kind)
    {
      if jobIsTerminated != Some(false) then None else Some(JobControlCaption(kind))
    }

    // -------------------------------------------------------------------------
    // Menu actions

    /** "Re-run job...": the job's own target and command. */
    function RerunJobRequest(): (req: RunRequest)
      reads this
      ensures req.targetType == targetType && req.target == target && req.command == CommandLine(commandText)
    {
      RunRequest(targetType, target, CommandLine(commandText))
    }

    /** The terminate, kill and signal items address the job's own target. */
    function JobControlRequest(kind: JobControl): (req: RunRequest)
      reads this
      ensures req.targetType == targetType && req.target == target
      ensures req.command.CommandWords? && req.command.words == JobControlWords(kind, jobId)
    {
      RunRequest(targetType, target, CommandWords(JobControlWords(kind, jobId)))
    }

    /** The four "re-run job on ... minions" items: a list target built from the
      matching minions, with the job's command. */
    method RerunOnListRequests() returns (all: RunRequest, unsuccessful: RunRequest,
                                          failed: RunRequest, nonResponding: RunRequest)
      ensures all == RunRequest(Some("list"), AllMinionsTargets(minions), CommandLine(commandText))
      ensures unsuccessful == RunRequest(Some("list"), UnsuccessfulTargets(minions, result), CommandLine(commandText))
      ensures failed == RunRequest(Some("list"), FailedTargets(minions, result), CommandLine(commandText))
      ensures nonResponding == RunRequest(Some("list"), NonRespondingTargets(minions, result), CommandLine(commandText))
    {
      var lst := ListForRerunJobOnAllMinions();
      all := RunRequest(Some("list"), lst, CommandLine(commandText));
      lst := ListForRerunJobOnUnsuccessfulMinions();
      unsuccessful := RunRequest(Some("list"), lst, CommandLine(commandText));
      lst := ListForRerunJobOnFailedMinions();
      failed := RunRequest(Some("list"), lst, CommandLine(commandText));
      lst := ListForRerunJobOnNonRespondingMinions();
      nonResponding := RunRequest(Some("list"), lst, CommandLine(commandText));
    }

    /** The titles of the four re-run list items, in menu order. */
    method RerunListTitles() returns (all: Option<string>, unsuccessful: Option<string>,
                                      failed: Option<string>, nonResponding: Option<string>)
      ensures all == RerunListTitle(AllMinionsTargets(minions), "Re-run job on all minions...")
      ensures unsuccessful == RerunListTitle(UnsuccessfulTargets(minions, result), "Re-run job on unsuccessful minions...")
      ensures failed == RerunListTitle(FailedTargets(minions, result), "Re-run job on failed minions...")
      ensures nonResponding == RerunListTitle(NonRespondingTargets(minions, result), "Re-run job on non responding minions...")
    {
      var lst := ListForRerunJobOnAllMinions();
      all := RerunListTitle(lst, "Re-run job on all minions...");
      lst := ListForRerunJobOnUnsuccessfulMinions();
      unsuccessful := RerunListTitle(lst, "Re-run job on unsuccessful minions...");
      lst := ListForRerunJobOnFailedMinions();
      failed := RerunListTitle(lst, "Re-run job on failed minions...");
      lst := ListForRerunJobOnNonRespondingMinions();
      nonResponding := RerunListTitle(lst, "Re-run job on non responding minions...");
    }
  }
}
