/**
 The ISO downloader: the single slot, the job that works through the mirrors, and what a
 download leaves behind.

 The network and the file system are given by what they did: for each mirror, what was
 reported, what the fetch left in the temp file, and whether a rename or a removal succeeded.
 */
module Downloads {
  import opened Wrappers

  type Content = seq<Byte>
  type Files = map<string, Content>

  datatype DownloadState = Downloading | Completed | Failed

  datatype JobError = NoMirrors | MirrorFailed(why: string) | FinalizeFailed

  datatype Status = Status(
    id: string,
    name: string,
    filename: string,
    state: DownloadState,
    bytes: nat,
    total: Option<nat>,
    percent: Option<nat>,
    mirror: Option<string>,
    mirrorIndex: nat,
    mirrorsTotal: nat,
    path: Option<string>,
    error: Option<JobError>)

  datatype Entry = Entry(id: string, name: string, filename: string, mirrors: seq<string>)

  datatype StartError = Disabled | UnknownId | BadTarget | AlreadyPresent | InProgress(filename: string, id: string)

  // ---- What happens outside ----

  datatype Report = Total(total: Option<nat>) | Progress(downloaded: nat)

  /** A fetch that succeeded wrote the temp file; one that failed may have. */
  datatype Fetch = Fetched(content: Content) | Broken(left: Option<Content>, why: string)

  datatype Attempt = Attempt(reports: seq<Report>, fetch: Fetch, renames: bool, removes: bool)

  // ---- Progress ----

  function Reported(s: Status, r: Report): Status {
    match r
    case Total(total) => s.(total := total)
    case Progress(downloaded) =>
      if s.total.Some? && s.total.value > 0
      then s.(bytes := downloaded, percent := Some(Percent(downloaded, s.total.value)))
      else s.(bytes := downloaded)
  }

  function Percent(downloaded: nat, total: nat): (percent: nat)
    requires total > 0
    ensures percent <= 100
    ensures percent == 100 <==> downloaded >= total
  {
    var d := if downloaded < total then downloaded else total;
    PercentRange(d, total);
    d * 100 / total
  }

  lemma PercentRange(d: nat, total: nat)
    requires d <= total && total > 0
    ensures 0 <= d * 100 / total <= 100
    ensures d * 100 / total == 100 <==> d == total
  {
    DivBelow(d * 100, total, 100);
    DivAtLeast(d * 100, total, 100);
  }

  lemma DivBelow(x: nat, d: nat, q: nat)
    requires d > 0 && x <= d * q
    ensures 0 <= x / d <= q
  {
    DivAtLeast(x, d, q + 1);
    assert d * (q + 1) == d * q + d;
  }

  lemma DivAtLeast(x: nat, d: nat, q: nat)
    requires d > 0
    ensures x / d >= q <==> x >= d * q
  {
    assert x == x / d * d + x % d;
    if x / d >= q {
      assert x / d * d >= q * d;
    } else {
      assert x / d * d <= (q - 1) * d == q * d - d;
    }
  }

  lemma DivMonotone(x: nat, y: nat, d: nat)
    requires x <= y && d > 0
    ensures x / d <= y / d
  {
    DivAtLeast(y, d, x / d);
    DivAtLeast(x, d, x / d);
  }

  /** `percent` is the whole part of the share of `total` that is in, as a percentage. */
  predicate IsPercent(percent: nat, downloaded: nat, total: nat) {
    var d := if downloaded < total then downloaded else total;
    percent * total <= 100 * d < (percent + 1) * total
  }

  lemma PercentIsFloor(downloaded: nat, total: nat)
    requires total > 0
    ensures IsPercent(Percent(downloaded, total), downloaded, total)
    ensures forall p: nat :: IsPercent(p, downloaded, total) ==> p == Percent(downloaded, total)
  {
    var d := if downloaded < total then downloaded else total;
    var q := Percent(downloaded, total);
    DivAtLeast(d * 100, total, q);
    DivAtLeast(d * 100, total, q + 1);
    forall p: nat | IsPercent(p, downloaded, total)
      ensures p == q
    {
      DivAtLeast(d * 100, total, p);
      DivAtLeast(d * 100, total, p + 1);
    }
  }

  function ReportedAll(s: Status, reports: seq<Report>): Status
    decreases |reports|
  {
    if reports == [] then s else ReportedAll(Reported(s, reports[0]), reports[1..])
  }

  predicate PercentInRange(s: Status) {
    s.percent.Some? ==> s.percent.value <= 100
  }

  /** Reported bytes never decrease. */
  predicate Growing(reports: seq<Report>) {
    forall i, j :: 0 <= i < j < |reports| && reports[i].Progress? && reports[j].Progress? ==>
      reports[i].downloaded <= reports[j].downloaded
  }

  /** The total is reported at most once. */
  predicate TotalOnce(reports: seq<Report>) {
    forall i, j :: 0 <= i < j < |reports| ==> !(reports[i].Total? && reports[j].Total?)
  }

  /** No percent yet, or one that is no larger. */
  predicate NoLater(before: Option<nat>, after: Option<nat>) {
    before.Some? ==> after.Some? && before.value <= after.value
  }

  /** While nothing is reported but growing byte counts, the percent does not drop. */
  lemma {:induction false} ProgressGrows(s: Status, reports: seq<Report>, from: nat)
    requires Growing(reports)
    requires forall i :: 0 <= i < |reports| ==> reports[i].Progress? && from <= reports[i].downloaded
    requires s.total.Some? && s.total.value > 0 && s.percent.Some? ==> s.percent.value <= Percent(from, s.total.value)
    ensures NoLater(s.percent, ReportedAll(s, reports).percent)
    decreases |reports|
  {
    if reports != [] {
      var s', d := Reported(s, reports[0]), reports[0].downloaded;
      if s.total.Some? && s.total.value > 0 {
        PercentMonotone(from, d, s.total.value);
      }
      forall i | 0 <= i < |reports[1..]|
        ensures reports[1..][i].Progress? && d <= reports[1..][i].downloaded
      {
        assert reports[1..][i] == reports[i + 1];
      }
      ProgressGrows(s', reports[1..], d);
    }
  }

  lemma PercentMonotone(d: nat, d': nat, total: nat)
    requires d <= d' && total > 0
    ensures Percent(d, total) <= Percent(d', total)
  {
    DivMonotone((if d < total then d else total) * 100, (if d' < total then d' else total) * 100, total);
  }

  // ---- One download ----

  function TempFor(dest: string): string {
    dest + ".part"
  }

  function Removed(files: Files, path: string, succeeds: bool): Files {
    if succeeds then files - {path} else files
  }

  function Initial(entry: Entry): Status {
    Status(entry.id, entry.name, entry.filename, Downloading, 0, None, None,
           if entry.mirrors == [] then None else Some(entry.mirrors[0]), 0, |entry.mirrors|, None, None)
  }

  /** The status when a mirror is about to be tried. */
  function Restarted(s: Status, url: string, index: nat): Status {
    s.(mirror := Some(url), mirrorIndex := index, bytes := 0, total := None, percent := None)
  }

  function CompletedStatus(s: Status, dest: string): Status {
    s.(state := Completed, path := Some(dest), percent := if s.total.Some? then Some(100) else s.percent)
  }

  function FailedStatus(s: Status, why: JobError): Status {
    s.(state := Failed, error := Some(why))
  }

  datatype Ended = Ended(status: Status, files: Files)

  /** What the fetch leaves in the temp file. */
  function Written(files: Files, temp: string, fetch: Fetch): Files {
    match fetch
    case Fetched(content) => files[temp := content]
    case Broken(Some(content), _) => files[temp := content]
    case Broken(None, _) => files
  }

  /** The mirrors from `i` on, after the earlier ones failed, the last with `why`. */
  function TryMirrors(s: Status, files: Files, mirrors: seq<string>, dest: string, attempts: seq<Attempt>, i: nat,
      why: JobError): Ended
    requires i <= |mirrors| == |attempts|
    decreases |mirrors| - i
  {
    if i == |mirrors| then Ended(FailedStatus(s, why), files)
    else
      var a := attempts[i];
      var s' := ReportedAll(Restarted(s, mirrors[i], i), a.reports);
      var files' := Written(files, TempFor(dest), a.fetch);
      match a.fetch
      case Fetched(content) =>
        if a.renames then Ended(CompletedStatus(s', dest), (files' - {TempFor(dest)})[dest := content])
        else Ended(FailedStatus(s', FinalizeFailed), Removed(files', TempFor(dest), a.removes))
      case Broken(_, reason) =>
        TryMirrors(s', Removed(files', TempFor(dest), a.removes), mirrors, dest, attempts, i + 1, MirrorFailed(reason))
  }

  function Download(s: Status, files: Files, mirrors: seq<string>, dest: string, clears: bool,
      attempts: seq<Attempt>): Ended
    requires |mirrors| == |attempts|
  {
    TryMirrors(s, Removed(files, TempFor(dest), clears), mirrors, dest, attempts, 0, NoMirrors)
  }

  lemma {:induction false} ReportedConcat(s: Status, xs: seq<Report>, ys: seq<Report>)
    ensures ReportedAll(s, xs + ys) == ReportedAll(ReportedAll(s, xs), ys)
    decreases |xs|
  {
    if xs == [] {
      assert xs + ys == ys;
    } else {
      assert (xs + ys)[1..] == xs[1..] + ys;
      ReportedConcat(Reported(s, xs[0]), xs[1..], ys);
    }
  }

  /** Each report is shown as it comes: a total replaces the total, a byte count the byte count, and, when
      a positive total is known, the percent becomes the share that is in. */
  lemma ReportIsShown(s: Status, reports: seq<Report>, r: Report)
    ensures var before := ReportedAll(s, reports);
      var after := ReportedAll(s, reports + [r]);
      match r
      case Total(total) => after == before.(total := total)
      case Progress(downloaded) =>
        && after == before.(bytes := downloaded, percent := after.percent)
        && if before.total.Some? && before.total.value > 0
           then after.percent.Some? && IsPercent(after.percent.value, downloaded, before.total.value)
           else after.percent == before.percent
  {
    var before := ReportedAll(s, reports);
    ReportedConcat(s, reports, [r]);
    assert ReportedAll(before, [r]) == ReportedAll(Reported(before, r), [r][1..]);
    if r.Progress? && before.total.Some? && before.total.value > 0 {
      PercentIsFloor(r.downloaded, before.total.value);
    }
  }

  /** The percent shown is that of the last byte count, once both are known. */
  ghost predicate Shows(s: Status) {
    s.total.Some? && s.total.value > 0 && s.percent.Some? ==> s.percent.value <= Percent(s.bytes, s.total.value)
  }

  lemma {:induction false} StillShows(s: Status, reports: seq<Report>)
    requires Shows(s) && TotalOnce(reports) && Growing(reports)
    requires s.total.Some? ==> forall i :: 0 <= i < |reports| ==> reports[i].Progress?
    requires s.total.None? ==> s.percent.None?
    requires forall i :: 0 <= i < |reports| && reports[i].Progress? ==> s.bytes <= reports[i].downloaded
    ensures var s' := ReportedAll(s, reports);
      Shows(s') && (s'.total.None? ==> s'.percent.None?) && s.bytes <= s'.bytes
      && (forall i :: 0 <= i < |reports| && reports[i].Progress? ==> reports[i].downloaded <= s'.bytes)
      && (s'.total.Some? ==> s.total.Some? || exists i :: 0 <= i < |reports| && reports[i].Total?)
      && (s'.bytes == s.bytes
          || exists i :: 0 <= i < |reports| && reports[i].Progress? && reports[i].downloaded == s'.bytes)
    decreases |reports|
  {
    if reports != [] {
      var rest := reports[1..];
      assert forall i :: 0 <= i < |rest| ==> rest[i] == reports[i + 1];
      StillShows(Reported(s, reports[0]), rest);
    }
  }

  /** Within one attempt, when byte counts grow and the total is reported once, the percent shown
      after any number of reports is never below one shown earlier. */
  lemma PercentDoesNotDrop(s: Status, url: string, index: nat, reports: seq<Report>, n: nat, m: nat)
    requires Growing(reports) && TotalOnce(reports) && n <= m <= |reports|
    ensures NoLater(ReportedAll(Restarted(s, url, index), reports[..n]).percent,
                    ReportedAll(Restarted(s, url, index), reports[..m]).percent)
  {
    var start := Restarted(s, url, index);
    var mid := ReportedAll(start, reports[..n]);
    var rest := reports[n..m];
    assert reports[..m] == reports[..n] + rest;
    ReportedConcat(start, reports[..n], rest);
    StillShows(start, reports[..n]);
    if mid.percent.Some? {
      RestIsProgress(reports, n, m, mid.bytes);
      ProgressGrows(mid, rest, mid.bytes);
    }
  }

  lemma RestIsProgress(reports: seq<Report>, n: nat, m: nat, bytes: nat)
    requires Growing(reports) && TotalOnce(reports) && n <= m <= |reports|
    requires exists i :: 0 <= i < n && reports[..n][i].Total?
    requires bytes == 0 || exists i :: 0 <= i < n && reports[..n][i].Progress? && reports[..n][i].downloaded == bytes
    ensures Growing(reports[n..m])
    ensures forall i :: 0 <= i < m - n ==> reports[n..m][i].Progress? && bytes <= reports[n..m][i].downloaded
  {
    assert forall i :: 0 <= i < n ==> reports[..n][i] == reports[i];
    assert forall i :: 0 <= i < m - n ==> reports[n..m][i] == reports[n + i];
  }

  /** The statuses shown after each of the reports. */
  function ReportStatuses(s: Status, reports: seq<Report>): seq<Status>
    decreases |reports|
  {
    if reports == [] then [] else [Reported(s, reports[0])] + ReportStatuses(Reported(s, reports[0]), reports[1..])
  }

  /** Every status shown from mirror `i` on. */
  function Statuses(s: Status, mirrors: seq<string>, dest: string, attempts: seq<Attempt>, i: nat,
      why: JobError): seq<Status>
    requires i <= |mirrors| == |attempts|
    decreases |mirrors| - i
  {
    if i == |mirrors| then [FailedStatus(s, why)]
    else
      var a := attempts[i];
      var start := Restarted(s, mirrors[i], i);
      var s' := ReportedAll(start, a.reports);
      AttemptStatuses(s, mirrors, attempts, i) +
      match a.fetch
      case Fetched(_) => [if a.renames then CompletedStatus(s', dest) else FailedStatus(s', FinalizeFailed)]
      case Broken(_, reason) => Statuses(s', mirrors, dest, attempts, i + 1, MirrorFailed(reason))
  }

  /** Trying mirror `i` shows this before its outcome. */
  function AttemptStatuses(s: Status, mirrors: seq<string>, attempts: seq<Attempt>, i: nat): seq<Status>
    requires i < |mirrors| == |attempts|
  {
    [Restarted(s, mirrors[i], i)] + ReportStatuses(Restarted(s, mirrors[i], i), attempts[i].reports)
  }

  lemma Grouped<T>(a: seq<T>, b: seq<T>, c: seq<T>)
    ensures a + b + c == a + (b + c)
  {
  }

  lemma StatusesFrom(before: seq<Status>, s: Status, mirrors: seq<string>, dest: string, attempts: seq<Attempt>,
      i: nat, why: JobError)
    requires i < |mirrors| == |attempts|
    ensures var a := attempts[i];
      var s' := ReportedAll(Restarted(s, mirrors[i], i), a.reports);
      var tried := before + AttemptStatuses(s, mirrors, attempts, i);
      before + Statuses(s, mirrors, dest, attempts, i, why) ==
        match a.fetch
        case Fetched(_) => tried + [if a.renames then CompletedStatus(s', dest) else FailedStatus(s', FinalizeFailed)]
        case Broken(_, reason) => tried + Statuses(s', mirrors, dest, attempts, i + 1, MirrorFailed(reason))
  {
    hide ReportStatuses, ReportedAll;
  }

  lemma NoMoreStatuses(s: Status, mirrors: seq<string>, dest: string, attempts: seq<Attempt>, why: JobError)
    requires |mirrors| == |attempts|
    ensures Statuses(s, mirrors, dest, attempts, |mirrors|, why) == [FailedStatus(s, why)]
  {
  }

  /** Every report is shown: the status after each of them, in order. */
  lemma {:induction false} EveryReportIsShown(s: Status, reports: seq<Report>, i: nat)
    requires i < |reports|
    ensures |ReportStatuses(s, reports)| == |reports|
    ensures ReportStatuses(s, reports)[i] == ReportedAll(s, reports[..i + 1])
    decreases |reports|
  {
    var s' := Reported(s, reports[0]);
    assert reports[..i + 1][1..] == reports[1..][..i];
    if i > 0 {
      EveryReportIsShown(s', reports[1..], i - 1);
    } else if |reports| > 1 {
      EveryReportIsShown(s', reports[1..], 0);
    }
  }

  /** Without a total there is no percent. */
  lemma {:induction false} NoTotalNoPercent(s: Status, reports: seq<Report>)
    requires s.total == None && s.percent == None
    requires forall i :: 0 <= i < |reports| && reports[i].Total? ==> reports[i].total == None
    ensures ReportedAll(s, reports).total == None && ReportedAll(s, reports).percent == None
    decreases |reports|
  {
    if reports != [] {
      assert forall i :: 0 <= i < |reports[1..]| ==> reports[1..][i] == reports[i + 1];
      NoTotalNoPercent(Reported(s, reports[0]), reports[1..]);
    }
  }

  ghost predicate AllInRange(shown: seq<Status>) {
    forall x :: x in shown ==> PercentInRange(x)
  }

  lemma {:induction false} ReportsStayInRange(s: Status, reports: seq<Report>)
    requires PercentInRange(s)
    ensures PercentInRange(ReportedAll(s, reports)) && AllInRange(ReportStatuses(s, reports))
    decreases |reports|
  {
    if reports != [] {
      ReportsStayInRange(Reported(s, reports[0]), reports[1..]);
    }
  }

  lemma InRangeConcat(xs: seq<Status>, ys: seq<Status>)
    requires AllInRange(xs) && AllInRange(ys)
    ensures AllInRange(xs + ys)
  {
  }

  lemma AttemptInRange(s: Status, mirrors: seq<string>, attempts: seq<Attempt>, i: nat)
    requires i < |mirrors| == |attempts|
    ensures AllInRange(AttemptStatuses(s, mirrors, attempts, i))
    ensures PercentInRange(ReportedAll(Restarted(s, mirrors[i], i), attempts[i].reports))
  {
    ReportsStayInRange(Restarted(s, mirrors[i], i), attempts[i].reports);
    InRangeConcat([Restarted(s, mirrors[i], i)], ReportStatuses(Restarted(s, mirrors[i], i), attempts[i].reports));
  }

  /** Every status that a download shows has a percent of at most 100. */
  lemma {:induction false} PercentNeverExceeds(s: Status, mirrors: seq<string>, dest: string, attempts: seq<Attempt>,
      i: nat, why: JobError)
    requires i <= |mirrors| == |attempts| && PercentInRange(s)
    ensures AllInRange(Statuses(s, mirrors, dest, attempts, i, why))
    decreases |mirrors| - i
  {
    hide ReportedAll, ReportStatuses, AttemptStatuses;
    if i < |mirrors| {
      var a := attempts[i];
      var s' := ReportedAll(Restarted(s, mirrors[i], i), a.reports);
      AttemptInRange(s, mirrors, attempts, i);
      if a.fetch.Broken? {
        PercentNeverExceeds(s', mirrors, dest, attempts, i + 1, MirrorFailed(a.fetch.why));
        InRangeConcat(AttemptStatuses(s, mirrors, attempts, i),
          Statuses(s', mirrors, dest, attempts, i + 1, MirrorFailed(a.fetch.why)));
      } else {
        InRangeConcat(AttemptStatuses(s, mirrors, attempts, i),
          [if a.renames then CompletedStatus(s', dest) else FailedStatus(s', FinalizeFailed)]);
      }
    }
  }

  /** The last status shown is the one the download ends with. */
  lemma {:induction false} LastShownIsFinal(s: Status, files: Files, mirrors: seq<string>, dest: string,
      attempts: seq<Attempt>, i: nat, why: JobError)
    requires i <= |mirrors| == |attempts|
    ensures var shown := Statuses(s, mirrors, dest, attempts, i, why);
      shown != [] && shown[|shown| - 1] == TryMirrors(s, files, mirrors, dest, attempts, i, why).status
    decreases |mirrors| - i
  {
    hide Written, ReportedAll, AttemptStatuses;
    if i < |mirrors| && attempts[i].fetch.Broken? {
      var a := attempts[i];
      LastShownIsFinal(ReportedAll(Restarted(s, mirrors[i], i), a.reports),
        Removed(Written(files, TempFor(dest), a.fetch), TempFor(dest), a.removes),
        mirrors, dest, attempts, i + 1, MirrorFailed(a.fetch.why));
    }
  }

  predicate ShowsStartOf(s: Status, url: string, index: nat, state: DownloadState) {
    s.mirror == Some(url) && s.mirrorIndex == index && s.state == state
    && s.bytes == 0 && s.total == None && s.percent == None
  }

  /** Every mirror that is tried is shown first: its url and number, nothing downloaded yet. */
  lemma {:induction false} EveryTriedMirrorIsShown(s: Status, mirrors: seq<string>, dest: string,
      attempts: seq<Attempt>, i: nat, why: JobError, j: nat)
    requires i <= j < |mirrors| == |attempts| && forall k :: i <= k < j ==> attempts[k].fetch.Broken?
    ensures exists x | x in Statuses(s, mirrors, dest, attempts, i, why) :: ShowsStartOf(x, mirrors[j], j, s.state)
    decreases j - i
  {
    var start := Restarted(s, mirrors[i], i);
    var s' := ReportedAll(start, attempts[i].reports);
    ReportsKeepPlace(start, attempts[i].reports);
    if i == j {
      assert start in AttemptStatuses(s, mirrors, attempts, i) && ShowsStartOf(start, mirrors[i], i, s.state);
      assert start in Statuses(s, mirrors, dest, attempts, i, why);
    } else {
      EveryTriedMirrorIsShown(s', mirrors, dest, attempts, i + 1, MirrorFailed(attempts[i].fetch.why), j);
    }
  }

  // ---- Failover ----

  /** The first mirror whose fetch succeeded. */
  predicate FirstSuccess(attempts: seq<Attempt>, j: int) {
    0 <= j < |attempts| && attempts[j].fetch.Fetched? && forall i :: 0 <= i < j ==> attempts[i].fetch.Broken?
  }

  /** No total was reported. */
  ghost predicate SizeUnknown(a: Attempt) {
    forall i :: 0 <= i < |a.reports| && a.reports[i].Total? ==> a.reports[i].total == None
  }

  ghost predicate AllBroken(attempts: seq<Attempt>) {
    forall i :: 0 <= i < |attempts| ==> attempts[i].fetch.Broken?
  }

  /** All but the temp file is as it was. */
  ghost predicate OnlyTempDiffers(files: Files, files': Files, dest: string) {
    files' - {TempFor(dest)} == files - {TempFor(dest)}
  }

  ghost predicate RemovalsSucceed(clears: bool, attempts: seq<Attempt>) {
    clears && forall i :: 0 <= i < |attempts| ==> attempts[i].removes
  }

  lemma {:induction false} MirrorsFrom(s: Status, files: Files, mirrors: seq<string>, dest: string,
      attempts: seq<Attempt>, i: nat, why: JobError)
    requires i <= |mirrors| == |attempts| && forall k :: 0 <= k < i ==> attempts[k].fetch.Broken?
    ensures var e := TryMirrors(s, files, mirrors, dest, attempts, i, why);
      && (AllBroken(attempts) ==>
            && e.status.state == Failed
            && e.status.error == Some(if i == |attempts| then why else MirrorFailed(attempts[|attempts| - 1].fetch.why))
            && OnlyTempDiffers(files, e.files, dest))
      && (forall j :: FirstSuccess(attempts, j) ==>
            && e.status.mirrorIndex == j && e.status.mirror == Some(mirrors[j])
            && (attempts[j].renames ==>
                  && e.status.state == Completed && e.status.path == Some(dest)
                  && (e.status.total.Some? ==> e.status.percent == Some(100))
                  && (SizeUnknown(attempts[j]) ==> e.status.percent == None)
                  && e.files == (files - {TempFor(dest)})[dest := attempts[j].fetch.content])
            && (!attempts[j].renames ==>
                  && e.status.state == Failed && e.status.error == Some(FinalizeFailed)
                  && OnlyTempDiffers(files, e.files, dest)))
      && ((i == |mirrors| ==> TempFor(dest) !in files) && (forall k :: i <= k < |attempts| ==> attempts[k].removes) ==>
            TempFor(dest) !in e.files)
    decreases |mirrors| - i
  {
    hide ReportedAll, Written;
    if i < |mirrors| {
      var a := attempts[i];
      WrittenInTemp(files, TempFor(dest), a.fetch);
      var s' := ReportedAll(Restarted(s, mirrors[i], i), a.reports);
      var files' := Removed(Written(files, TempFor(dest), a.fetch), TempFor(dest), a.removes);
      ReportsKeepPlace(Restarted(s, mirrors[i], i), a.reports);
      TempIsNot(dest);
      if a.fetch.Broken? {
        assert OnlyTempDiffers(files, files', dest);
        MirrorsFrom(s', files', mirrors, dest, attempts, i + 1, MirrorFailed(a.fetch.why));
      } else {
        assert FirstSuccess(attempts, i);
        assert forall j :: FirstSuccess(attempts, j) ==> j == i;
        if SizeUnknown(a) {
          NoTotalNoPercent(Restarted(s, mirrors[i], i), a.reports);
        }
      }
    }
  }

  lemma WrittenInTemp(files: Files, temp: string, fetch: Fetch)
    ensures Written(files, temp, fetch) - {temp} == files - {temp}
  {
  }

  lemma TempIsNot(dest: string)
    ensures TempFor(dest) != dest
  {
    assert |TempFor(dest)| == |dest| + 5;
  }

  lemma {:induction false} ReportsKeepPlace(s: Status, reports: seq<Report>)
    ensures var s' := ReportedAll(s, reports);
      && s'.mirrorIndex == s.mirrorIndex && s'.mirror == s.mirror
      && s'.state == s.state && s'.path == s.path && s'.error == s.error
    decreases |reports|
  {
    if reports != [] {
      ReportsKeepPlace(Reported(s, reports[0]), reports[1..]);
    }
  }

  /** A download completes exactly when the first mirror whose fetch succeeds can be renamed, and
      then the destination holds that mirror's bytes and the temp file is gone. Otherwise it fails,
      because every mirror failed or that rename did, and all but the temp file is as it was; the
      temp file is gone too if every removal succeeded. */
  lemma MirrorFailover(s: Status, files: Files, mirrors: seq<string>, dest: string, clears: bool,
      attempts: seq<Attempt>)
    requires |mirrors| == |attempts|
    ensures var e := Download(s, files, mirrors, dest, clears, attempts);
      && (e.status.state == Completed <==> exists j :: FirstSuccess(attempts, j) && attempts[j].renames)
      && (e.status.state == Completed || e.status.state == Failed)
      && (forall j :: FirstSuccess(attempts, j) && attempts[j].renames ==>
            && e.files == (files - {TempFor(dest)})[dest := attempts[j].fetch.content]
            && e.status.mirrorIndex == j && e.status.mirror == Some(mirrors[j]) && e.status.path == Some(dest)
            && (e.status.total.Some? ==> e.status.percent == Some(100))
            && (SizeUnknown(attempts[j]) ==> e.status.percent == None))
      && (e.status.state == Failed ==>
            && OnlyTempDiffers(files, e.files, dest)
            && e.status.error == Some(
                 if !AllBroken(attempts) then FinalizeFailed
                 else if attempts == [] then NoMirrors
                 else MirrorFailed(attempts[|attempts| - 1].fetch.why)))
      && (RemovalsSucceed(clears, attempts) ==> TempFor(dest) !in e.files)
  {
    MirrorsFrom(s, Removed(files, TempFor(dest), clears), mirrors, dest, attempts, 0, NoMirrors);
    if !AllBroken(attempts) {
      var j := SomeFirst(attempts);
    }
  }

  lemma SomeFirst(attempts: seq<Attempt>) returns (j: nat)
    requires !AllBroken(attempts)
    ensures FirstSuccess(attempts, j)
  {
    j := 0;
    while attempts[j].fetch.Broken?
      invariant j < |attempts| && forall i :: 0 <= i < j ==> attempts[i].fetch.Broken?
      decreases |attempts| - j
    {
      if j + 1 == |attempts| {
        assert false;
      }
      j := j + 1;
    }
  }

  // ---- Starting one ----

  function Find(catalog: seq<Entry>, id: string): Option<Entry> {
    if catalog == [] then None
    else if catalog[0].id == id then Some(catalog[0])
    else Find(catalog[1..], id)
  }

  /** The entry and its absent target, or the first refusal. */
  function Checked(allowed: bool, catalog: seq<Entry>, id: string, resolved: map<string, string>, files: Files)
    : Result<(Entry, string), StartError>
  {
    if !allowed then Failure(Disabled)
    else match Find(catalog, id)
      case None => Failure(UnknownId)
      case Some(entry) =>
        if entry.filename !in resolved then Failure(BadTarget)
        else if resolved[entry.filename] in files then Failure(AlreadyPresent)
        else Success((entry, resolved[entry.filename]))
  }

  /** The lookup finds an entry with the id if the catalog has one, and the one if ids are distinct. */
  lemma {:induction false} FindIsEntry(catalog: seq<Entry>, id: string)
    ensures match Find(catalog, id)
      case Some(entry) => entry in catalog && entry.id == id
      case None => forall e :: e in catalog ==> e.id != id
    ensures DistinctIds(catalog) ==>
      forall e :: e in catalog && e.id == id ==> Find(catalog, id) == Some(e)
  {
    if catalog != [] {
      FindIsEntry(catalog[1..], id);
    }
  }

  predicate DistinctIds(catalog: seq<Entry>) {
    forall i, j :: 0 <= i < j < |catalog| ==> catalog[i].id != catalog[j].id
  }

  /** With distinct ids, a start is let through exactly when downloading is enabled and the catalog has
      an entry of that id whose target resolves and is absent, and then with that entry and target. */
  lemma StartIsLetThrough(allowed: bool, catalog: seq<Entry>, id: string, resolved: map<string, string>, files: Files,
      e: Entry, dest: string)
    requires DistinctIds(catalog)
    ensures Checked(allowed, catalog, id, resolved, files) == Success((e, dest)) <==>
      && allowed && e in catalog && e.id == id
      && e.filename in resolved && dest == resolved[e.filename] && dest !in files
  {
    FindIsEntry(catalog, id);
  }

  /** The refusals of a start, in order: the first that applies is the answer. */
  lemma StartIsRefused(allowed: bool, catalog: seq<Entry>, id: string, resolved: map<string, string>, files: Files)
    ensures var r := Checked(allowed, catalog, id, resolved, files);
      && (r == Failure(Disabled) <==> !allowed)
      && (r == Failure(UnknownId) <==> allowed && forall e :: e in catalog ==> e.id != id)
      && (forall e :: allowed && e in catalog && e.id == id && DistinctIds(catalog) ==>
            && (r == Failure(BadTarget) <==> e.filename !in resolved)
            && (r == Failure(AlreadyPresent) <==> e.filename in resolved && resolved[e.filename] in files))
      && (r.Failure? ==> !r.error.InProgress?)
  {
    FindIsEntry(catalog, id);
  }

  // ---- The manager ----

  /** A status shared between the manager and its job; `shown` is every status it has had since. */
  class Shared {
    var status: Status
    ghost var shown: seq<Status>

    constructor (s: Status)
      ensures status == s && shown == []
    {
      status, shown := s, [];
    }

    method Set(s: Status)
      modifies this
      ensures status == s && shown == old(shown) + [s]
    {
      status := s;
      shown := shown + [s];
    }

    method OnTotal(total: Option<nat>)
      modifies this
      ensures status == Reported(old(status), Total(total)) && shown == old(shown) + [status]
    {
      Set(status.(total := total));
    }

    method OnProgress(downloaded: nat)
      modifies this
      ensures status == Reported(old(status), Progress(downloaded)) && shown == old(shown) + [status]
    {
      var s := status.(bytes := downloaded);
      if s.total.Some? {
        var total := s.total.value;
        if total > 0 {
          var pct := Percent(downloaded, total);
          s := s.(percent := Some(pct));
        }
      }
      Set(s);
    }

    /** The reports of one fetch, in order. */
    method Observe(reports: seq<Report>)
      modifies this
      ensures status == ReportedAll(old(status), reports)
      ensures shown == old(shown) + ReportStatuses(old(status), reports)
    {
      for i := 0 to |reports|
        invariant ReportedAll(old(status), reports) == ReportedAll(status, reports[i..])
        invariant shown + ReportStatuses(status, reports[i..]) == old(shown) + ReportStatuses(old(status), reports)
      {
        assert reports[i..][0] == reports[i] && reports[i..][1..] == reports[i + 1..];
        ghost var before, rest := shown, ReportStatuses(Reported(status, reports[i]), reports[i + 1..]);
        assert before + ([Reported(status, reports[i])] + rest) == before + [Reported(status, reports[i])] + rest;
        match reports[i] {
          case Total(total) => OnTotal(total);
          case Progress(downloaded) => OnProgress(downloaded);
        }
      }
    }
  }

  class Store {
    var files: Files

    constructor ()
      ensures files == map[]
    {
      files := map[];
    }
  }

  class DownloadManager {
    const allowed: bool
    const catalog: seq<Entry>
    var active: Option<Shared>
    var last: Option<Status>

    constructor (allowed: bool, catalog: seq<Entry>)
      ensures this.allowed == allowed && this.catalog == catalog && active == None && last == None
    {
      this.allowed := allowed;
      this.catalog := catalog;
      active := None;
      last := None;
    }

    /** The part of `start` before the lock: `resolved` is the target inside the store, if it resolves. */
    method Check(id: string, resolved: map<string, string>, store: Store)
        returns (r: Result<(Entry, string), StartError>)
      ensures r == Checked(allowed, catalog, id, resolved, store.files)
    {
      if !allowed {
        return Failure(Disabled);
      }
      var i := 0;
      while i < |catalog| && catalog[i].id != id
        invariant i <= |catalog| && Find(catalog, id) == Find(catalog[i..], id)
      {
        i := i + 1;
      }
      if i == |catalog| {
        return Failure(UnknownId);
      }
      var entry := catalog[i];
      if entry.filename !in resolved {
        return Failure(BadTarget);
      }
      var dest := resolved[entry.filename];
      if dest in store.files {
        return Failure(AlreadyPresent);
      }
      return Success((entry, dest));
    }

    /** The part of `start` under the lock. */
    method Claim(entry: Entry) returns (r: Result<Shared, StartError>)
      modifies this
      ensures last == old(last)
      ensures old(active).Some? ==>
        && active == old(active)
        && r == Failure(InProgress(active.value.status.filename, active.value.status.id))
      ensures old(active).None? ==>
        && r.Success? && fresh(r.value)
        && active == Some(r.value) && r.value.status == Initial(entry)
      ensures r.Success? ==>
        r.value.status == Status(
          entry.id, entry.name, entry.filename, Downloading, 0, None, None,
          if |entry.mirrors| > 0 then Some(entry.mirrors[0]) else None, 0, |entry.mirrors|, None, None)
    {
      if active.Some? {
        var cur := active.value.status;
        return Failure(InProgress(cur.filename, cur.id));
      }
      var shared := new Shared(Initial(entry));
      active := Some(shared);
      return Success(shared);
    }

    /** A whole `start` that nothing interrupts: what it hands to the background job. */
    method Start(id: string, resolved: map<string, string>, store: Store)
        returns (r: Result<(Entry, string, Shared), StartError>)
      modifies this
      ensures last == old(last)
      ensures var checked := Checked(allowed, catalog, id, resolved, store.files);
        && (r.Failure? ==> active == old(active))
        && (checked.Failure? ==> r == Failure(checked.error))
        && (checked.Success? && old(active).Some? ==> r.Failure? && r.error.InProgress?)
        && (checked.Success? && old(active).None? ==>
              && r.Success? && (r.value.0, r.value.1) == checked.value
              && active == Some(r.value.2) && fresh(r.value.2) && r.value.2.status == Initial(checked.value.0))
    {
      var checked :- Check(id, resolved, store);
      var shared :- Claim(checked.0);
      return Success((checked.0, checked.1, shared));
    }

    method Finish(shared: Shared)
      modifies this
      ensures active == None && last == Some(shared.status)
    {
      var snapshot := shared.status;
      active := None;
      last := Some(snapshot);
    }

    /** What trying mirror `i` shows before its outcome. */
    method Try(shared: Shared, mirrors: seq<string>, attempts: seq<Attempt>, i: nat)
      requires i < |mirrors| == |attempts|
      modifies shared
      ensures shared.status == ReportedAll(Restarted(old(shared.status), mirrors[i], i), attempts[i].reports)
      ensures shared.shown == old(shared.shown) + AttemptStatuses(old(shared.status), mirrors, attempts, i)
    {
      hide ReportStatuses, ReportedAll;
      ghost var start := Restarted(shared.status, mirrors[i], i);
      Grouped(shared.shown, [start], ReportStatuses(start, attempts[i].reports));
      shared.Set(Restarted(shared.status, mirrors[i], i));
      shared.Observe(attempts[i].reports);
    }

    /** The background job. */
    method RunDownload(store: Store, mirrors: seq<string>, dest: string, shared: Shared, clears: bool,
        attempts: seq<Attempt>)
      requires |mirrors| == |attempts|
      modifies this, store, shared
      ensures Ended(shared.status, store.files)
        == Download(old(shared.status), old(store.files), mirrors, dest, clears, attempts)
      ensures shared.shown == old(shared.shown) + Statuses(old(shared.status), mirrors, dest, attempts, 0, NoMirrors)
      ensures active == None && last == Some(shared.status)
    {
      hide ReportedAll, ReportStatuses, AttemptStatuses, Written, Statuses;
      var temp := TempFor(dest);
      store.files := Removed(store.files, temp, clears);
      var lastErr := NoMirrors;
      var i := 0;
      ghost var all := Download(shared.status, old(store.files), mirrors, dest, clears, attempts);
      ghost var shown := old(shared.shown) + Statuses(shared.status, mirrors, dest, attempts, 0, NoMirrors);
      while i < |mirrors|
        invariant i <= |mirrors|
        invariant shared.shown + Statuses(shared.status, mirrors, dest, attempts, i, lastErr) == shown
        invariant all == TryMirrors(shared.status, store.files, mirrors, dest, attempts, i, lastErr)
      {
        var a := attempts[i];
        StatusesFrom(shared.shown, shared.status, mirrors, dest, attempts, i, lastErr);
        Try(shared, mirrors, attempts, i);
        store.files := Written(store.files, temp, a.fetch);
        match a.fetch {
          case Fetched(content) =>
            if a.renames {
              store.files := (store.files - {temp})[dest := content];
              shared.Set(CompletedStatus(shared.status, dest));
              Finish(shared);
              return;
            }
            store.files := Removed(store.files, temp, a.removes);
            lastErr := FinalizeFailed;
            break;
          case Broken(_, why) =>
            store.files := Removed(store.files, temp, a.removes);
            lastErr := MirrorFailed(why);
        }
        i := i + 1;
      }
      if i == |mirrors| {
        NoMoreStatuses(shared.status, mirrors, dest, attempts, lastErr);
      }
      shared.Set(FailedStatus(shared.status, lastErr));
      Finish(shared);
    }
  }
}
