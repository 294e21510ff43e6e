/**
 * The recommendation-file protocol of ProjectPort.DownloadRecommendationFiles,
 * stated per file name: what happens to a name the first time the loop meets
 * it decides everything, whatever the iteration order.
 */
module RecommendationCache {
  import opened Wrappers
  import opened Strings
  import opened FileSystem
  import opened Config
  import opened Collaborators

  /** The rule file a namespace maps to: lowercase(namespace) + ".json". */
  function FileName(ns: string): string {
    ToLower(ns) + ".json"
  }

  /** The local path of a rule file, under the rules directory. */
  function CachePath(name: string, c: Constants): Path {
    Path(c.rulesDefaultPath, name)
  }

  /** The remote URL of a rule file in the recommendations bucket. */
  function RemoteUrl(name: string, c: Constants): string {
    c.recommendationsBucketUrl + "/" + name
  }

  /** The rule files the non-empty namespaces of `refs` map to. */
  function Candidates(refs: set<string>): set<string> {
    set ns | ns in refs && ns != "" :: FileName(ns)
  }

  /** One more namespace adds its file name to the candidates, unless it is empty. */
  lemma CandidatesStep(refs: set<string>, ns: string)
    ensures Candidates(refs + {ns}) == Candidates(refs) + (if ns == "" then {} else {FileName(ns)})
  {
  }

  /** The records of the settled names, restated over the namespaces met so far. */
  lemma SettledCandidates(done: set<string>, ns: string, d: Disk, remote: Remote, c: Constants,
                          cur: Disk, matched: set<string>, skip: set<Path>, probed: set<string>)
    requires Records(Candidates(done) + (if ns == "" then {} else {FileName(ns)}), d, remote, c, cur, matched, skip, probed)
    ensures Records(Candidates(done + {ns}), d, remote, c, cur, matched, skip, probed)
  {
    CandidatesStep(done, ns);
  }

  /** What the loop does with a file name the first time it meets it. */
  datatype Fate =
    | Cached                          // the file is already on disk
    | Downloaded(content: string)     // present remotely, written in full
    | ReportedAbsent                  // the existence check said no
    | Failed(written: Option<string>) // an exception; a partial file may remain

  function FateOf(name: string, d: Disk, remote: Remote, c: Constants): Fate {
    if CachePath(name, c) in d.files then Cached
    else
      match remote(RemoteUrl(name, c))
      case Absent => ReportedAbsent
      case CheckFails => Failed(None)
      case DownloadFails => Failed(None)
      case Present(content) =>
        if c.rulesDefaultPath in d.dirs then Downloaded(content) else Failed(None)
      case CopyFails(partial) =>
        if c.rulesDefaultPath in d.dirs then Failed(Some(partial)) else Failed(None)
  }

  /** Recorded in the matched files: the file existed, was downloaded, or was reported absent. */
  predicate IsMatched(f: Fate) {
    f.Cached? || f.Downloaded? || f.ReportedAbsent?
  }

  /** Put in the skip memo: reported absent, or an exception was caught. */
  predicate IsSkipped(f: Fate) {
    f.ReportedAbsent? || f.Failed?
  }

  /** The content left on disk by `File.Create` and the stream copy, if any. */
  function WrittenContent(f: Fate): Option<string> {
    match f
    case Downloaded(content) => Some(content)
    case Failed(written) => written
    case _ => None
  }

  function MatchedNames(names: set<string>, d: Disk, remote: Remote, c: Constants): set<string> {
    set n | n in names && IsMatched(FateOf(n, d, remote, c))
  }

  function SkipMemo(names: set<string>, d: Disk, remote: Remote, c: Constants): set<Path> {
    set n | n in names && IsSkipped(FateOf(n, d, remote, c)) :: CachePath(n, c)
  }

  function WrittenPaths(names: set<string>, d: Disk, remote: Remote, c: Constants): set<Path> {
    set n | n in names && WrittenContent(FateOf(n, d, remote, c)).Some? :: CachePath(n, c)
  }

  function WrittenFiles(names: set<string>, d: Disk, remote: Remote, c: Constants): map<Path, string> {
    map p | p in WrittenPaths(names, d, remote, c) :: WrittenContent(FateOf(p.name, d, remote, c)).value
  }

  /** The URLs whose existence is checked: those of names not already on disk. */
  function ProbedUrls(names: set<string>, d: Disk, c: Constants): set<string> {
    set n | n in names && CachePath(n, c) !in d.files :: RemoteUrl(n, c)
  }

  /** Distinct file names have distinct URLs. */
  lemma RemoteUrlInjective(a: string, b: string, c: Constants)
    requires RemoteUrl(a, c) == RemoteUrl(b, c)
    ensures a == b
  {
    PrefixCancels(c.recommendationsBucketUrl + "/", a, b);
  }

  /**
   * Two namespaces map to the same rule file exactly when they have the same
   * length and agree character by character up to ASCII letter case.
   */
  lemma CaseVariantsShareFile(a: string, b: string)
    ensures FileName(a) == FileName(b) <==>
      |a| == |b| && forall i :: 0 <= i < |a| ==> LowerChar(a[i]) == LowerChar(b[i])
  {
    if FileName(a) == FileName(b) {
      SuffixCancels(ToLower(a), ToLower(b), ".json");
      assert |a| == |ToLower(a)|;
      forall i | 0 <= i < |a| ensures LowerChar(a[i]) == LowerChar(b[i]) {
        assert ToLower(a)[i] == ToLower(b)[i];
      }
    }
    if |a| == |b| && forall i :: 0 <= i < |a| ==> LowerChar(a[i]) == LowerChar(b[i]) {
      assert ToLower(a) == ToLower(b);
    }
  }

  /** Settling one more name adds its own entry to each record and changes nothing else. */
  lemma SettleName(names: set<string>, n: string, d: Disk, remote: Remote, c: Constants)
    requires n !in names
    ensures var fate := FateOf(n, d, remote, c);
      && MatchedNames(names + {n}, d, remote, c)
         == MatchedNames(names, d, remote, c) + (if IsMatched(fate) then {n} else {})
      && SkipMemo(names + {n}, d, remote, c)
         == SkipMemo(names, d, remote, c) + (if IsSkipped(fate) then {CachePath(n, c)} else {})
      && WrittenFiles(names + {n}, d, remote, c)
         == (if WrittenContent(fate).Some?
             then WrittenFiles(names, d, remote, c)[CachePath(n, c) := WrittenContent(fate).value]
             else WrittenFiles(names, d, remote, c))
      && ProbedUrls(names + {n}, d, c)
         == ProbedUrls(names, d, c) + (if CachePath(n, c) !in d.files then {RemoteUrl(n, c)} else {})
  {
    var fate := FateOf(n, d, remote, c);
    var before := WrittenFiles(names, d, remote, c);
    var after := WrittenFiles(names + {n}, d, remote, c);
    if WrittenContent(fate).Some? {
      assert CachePath(n, c) in WrittenPaths(names + {n}, d, remote, c);
      assert after == before[CachePath(n, c) := WrittenContent(fate).value];
    } else {
      assert after == before;
    }
    if CachePath(n, c) !in d.files {
      assert RemoteUrl(n, c) in ProbedUrls(names + {n}, d, c);
    }
  }

  /** A name not yet settled has no memo entry and no written file. */
  lemma UnsettledName(names: set<string>, n: string, d: Disk, remote: Remote, c: Constants)
    requires n !in names
    ensures CachePath(n, c) !in SkipMemo(names, d, remote, c)
    ensures CachePath(n, c) !in WrittenFiles(names, d, remote, c)
    ensures RemoteUrl(n, c) !in ProbedUrls(names, d, c)
  {
    if RemoteUrl(n, c) in ProbedUrls(names, d, c) {
      var m :| m in names && CachePath(m, c) !in d.files && RemoteUrl(m, c) == RemoteUrl(n, c);
      RemoteUrlInjective(m, n, c);
    }
  }

  /**
   * A settled name is in the memo or on disk; when it is not in the memo it
   * is already matched.
   */
  lemma SettledName(names: set<string>, n: string, d: Disk, remote: Remote, c: Constants)
    requires n in names
    ensures var p := CachePath(n, c);
      p !in SkipMemo(names, d, remote, c) ==>
        && p in d.files + WrittenFiles(names, d, remote, c)
        && n in MatchedNames(names, d, remote, c)
  {
    var fate := FateOf(n, d, remote, c);
    if IsSkipped(fate) {
      assert CachePath(n, c) in SkipMemo(names, d, remote, c);
    } else if fate.Downloaded? {
      assert CachePath(n, c) in WrittenPaths(names, d, remote, c);
    }
  }
  /**
   * The loop's records after settling `names` from disk `d`: the current disk,
   * the matched names, the skip memo and the probed URLs.
   */
  ghost predicate Records(names: set<string>, d: Disk, remote: Remote, c: Constants,
                          cur: Disk, matched: set<string>, skip: set<Path>, probed: set<string>)
  {
    && cur.dirs == d.dirs
    && cur.files == d.files + WrittenFiles(names, d, remote, c)
    && matched == MatchedNames(names, d, remote, c)
    && skip == SkipMemo(names, d, remote, c)
    && probed == ProbedUrls(names, d, c)
  }

  /**
   * The log of remote calls: `probes` lists the existence checks, each URL
   * at most once and exactly the URLs of `probed`; `downloads` lists the
   * checked URLs the remote reported present.
   */
  ghost predicate ProbeLog(probes: seq<string>, downloads: seq<string>, probed: set<string>, remote: Remote) {
    && (forall u :: u in probes <==> u in probed)
    && (forall i, j :: 0 <= i < j < |probes| ==> probes[i] != probes[j])
    && (forall u :: u in downloads <==> u in probes && remote(u).ReportsPresent())
  }

  /** Logging the existence check of a URL not checked before keeps the log well formed. */
  lemma LogProbe(probes: seq<string>, downloads: seq<string>, probed: set<string>, remote: Remote, u: string)
    requires ProbeLog(probes, downloads, probed, remote)
    requires u !in probed
    ensures ProbeLog(probes + [u], if remote(u).ReportsPresent() then downloads + [u] else downloads,
                     probed + {u}, remote)
  {
  }

  /** Before the loop nothing is settled: the records are the initial disk and empty sets. */
  lemma NothingSettled(d: Disk, remote: Remote, c: Constants)
    ensures Records({}, d, remote, c, d, {}, {}, {})
  {
    assert WrittenFiles({}, d, remote, c) == map[];
    assert d.files + map[] == d.files;
  }

  /** The disk after a file's fate, written from the current disk. */
  function AfterFate(name: string, fate: Fate, cur: Disk, c: Constants): Disk {
    if WrittenContent(fate).Some?
    then Disk(cur.dirs, cur.files[CachePath(name, c) := WrittenContent(fate).value])
    else cur
  }

  /**
   * Meeting a file name not settled yet: it is in neither the memo nor the
   * probed URLs, its fate on the current disk is its fate on the initial
   * disk, and recording that fate settles it.
   */
  lemma FirstVisit(names: set<string>, n: string, d: Disk, remote: Remote, c: Constants,
                   cur: Disk, matched: set<string>, skip: set<Path>, probed: set<string>)
    requires Records(names, d, remote, c, cur, matched, skip, probed)
    requires n !in names
    ensures var fate := FateOf(n, cur, remote, c);
      && fate == FateOf(n, d, remote, c)
      && CachePath(n, c) !in skip
      && RemoteUrl(n, c) !in probed
      && Records(names + {n}, d, remote, c,
                 AfterFate(n, fate, cur, c),
                 if IsMatched(fate) then matched + {n} else matched,
                 if IsSkipped(fate) then skip + {CachePath(n, c)} else skip,
                 if CachePath(n, c) !in cur.files then probed + {RemoteUrl(n, c)} else probed)
  {
    UnsettledName(names, n, d, remote, c);
    SettleName(names, n, d, remote, c);
    var fate := FateOf(n, d, remote, c);
    assert FateOf(n, cur, remote, c) == fate by {
      assert CachePath(n, c) in cur.files <==> CachePath(n, c) in d.files;
    }
    if WrittenContent(fate).Some? {
      UpdateAfterUnion(d.files, WrittenFiles(names, d, remote, c), CachePath(n, c), WrittenContent(fate).value);
    }
  }

  /** Updating a union at a key is updating its right operand there. */
  lemma UpdateAfterUnion<K, V>(a: map<K, V>, b: map<K, V>, k: K, v: V)
    ensures (a + b)[k := v] == a + b[k := v]
  {
  }

  /**
   * Meeting a settled file name again (from a case variant of an earlier
   * namespace): unless it is in the memo, it is on disk and already matched.
   */
  lemma LaterVisit(names: set<string>, n: string, d: Disk, remote: Remote, c: Constants,
                   cur: Disk, matched: set<string>, skip: set<Path>, probed: set<string>)
    requires Records(names, d, remote, c, cur, matched, skip, probed)
    requires n in names
    ensures names + {n} == names
    ensures CachePath(n, c) !in skip ==> FateOf(n, cur, remote, c) == Cached && matched + {n} == matched
  {
    SettledName(names, n, d, remote, c);
  }
}
