/** What holds of every history the release helper and its user can make:
    tags rise, and each names the commit that really is that release. */
module ReleaseHistory {
  import opened Wrappers
  import opened Release

  // --- copying files between trees --------------------------------------------

  lemma {:induction false} CopiedFiles(from: Tree, to: Tree, files: seq<File>, f: File)
    ensures Same(CopyFiles(from, to, files), if f in files then from else to, f)
    decreases |files|
  {
    if files != [] {
      var step := CopyFile(from, to, files[0]);
      assert Same(step, if f == files[0] then from else to, f);
      CopiedFiles(from, step, files[1..], f);
    }
  }

  lemma CopiedVersions(from: Tree, to: Tree, files: seq<File>)
    ensures forall crate: Crate ::
              VersionIn(CopyFiles(from, to, files), crate)
              == VersionIn(if Manifest(crate) in files then from else to, crate)
  {
    CopiedFiles(from, to, files, Manifest(Sys));
    CopiedFiles(from, to, files, Manifest(Main));
  }

  lemma CleanVersions(r: Repo, crate: Crate)
    requires WellFormed(r) && !Dirty(r, Manifest(crate))
    ensures VersionIn(Head(r), crate) == VersionIn(r.index, crate) == VersionIn(r.work, crate)
  {
  }

  // --- the invariant ------------------------------------------------------------

  /** A crate's version at HEAD, in the index and in the worktree: all alike, or
      a bump not committed yet, or a cycle whose marker publish has cleared
      without getting to commit it. */
  predicate InStep(head: Version, index: Version, work: Version) {
    || (index == head && work == head)
    || (!head.dev && Below(head, work)
        && (index == head || index == work || (index.dev && work == Released(index))))
    || (head.dev && work == Released(head) && (index == head || index == work))
  }

  ghost predicate InSteps(r: Repo)
    requires WellFormed(r)
  {
    forall crate: Crate :: InStep(VersionIn(Head(r), crate), VersionIn(r.index, crate), VersionIn(r.work, crate))
  }

  predicate BaseSound(r: Repo, crate: Crate)
    requires WellFormed(r)
  {
    VersionIn(Head(r), crate).dev ==>
      crate in r.bases && var base := VersionIn(r.bases[crate], crate);
      !base.dev && Below(base, VersionIn(Head(r), crate))
  }

  /** The last version of the crate that is not a cycle under way. */
  function Base(r: Repo, crate: Crate): Version
    requires WellFormed(r) && BaseSound(r, crate)
  {
    var head := VersionIn(Head(r), crate);
    if head.dev then VersionIn(r.bases[crate], crate) else head
  }

  ghost predicate TagsReached(r: Repo)
    requires WellFormed(r) && forall crate: Crate :: BaseSound(r, crate)
  {
    forall tag <- r.tags :: !Below(Base(r, tag.crate), tag.version)
  }

  /** The commit is the release the tag names. */
  predicate IsRelease(t: Tree, tag: Tag) {
    && VersionIn(t, tag.crate) == tag.version
    && Invariants(t, tag.crate, tag.version)
    && tag in t.docs && Finished(t.docs[tag])
  }

  ghost predicate TagsSound(r: Repo)
    requires WellFormed(r)
  {
    forall tag <- r.tags :: IsRelease(r.commits[r.tags[tag]], tag)
  }

  ghost predicate TagsRise(r: Repo) {
    forall a <- r.tags, b <- r.tags ::
      a.crate == b.crate && r.tags[a] < r.tags[b] ==> Below(a.version, b.version)
  }

  ghost predicate Inv(r: Repo) {
    && WellFormed(r) && InSteps(r)
    && (forall crate: Crate :: BaseSound(r, crate))
    && TagsReached(r) && TagsSound(r) && TagsRise(r)
  }

  // --- one step keeps it -----------------------------------------------------------

  /** A step that moves no commit, tag or base has only the versions to answer for. */
  lemma SameHistory(r: Repo, r': Repo)
    requires Inv(r)
    requires r' == r.(index := r'.index, work := r'.work)
    requires InSteps(r')
    ensures Inv(r')
  {
    assert Head(r') == Head(r);
    forall crate: Crate
      ensures BaseSound(r', crate) && Base(r', crate) == Base(r, crate)
    {
      assert BaseSound(r, crate);
    }
  }

  /** A commit on top, tagging nothing. */
  lemma Committed(r: Repo, r': Repo)
    requires Inv(r) && WellFormed(r') && InSteps(r')
    requires r'.commits == r.commits + [Head(r')] && r'.tags == r.tags
    requires forall crate: Crate ::
               BaseSound(r', crate) && !Below(Base(r', crate), Base(r, crate))
    ensures Inv(r')
  {
  }

  lemma TargetMovesSources(r: Repo, crate: Crate, request: Request, cycle: bool)
    ensures var (target, r') := Target(r, crate, request, cycle);
            && r' == r.(work := r.work.(vendor := r'.work.vendor, bindings := r'.work.bindings))
            && (target.Some? ==> Below(VersionIn(r.work, crate), target.value))
  {
  }

  lemma PrepareKeeps(r: Repo, crate: Crate, request: Request, cycle: bool, lockfile: bool)
    requires Inv(r) && (request.Vendor? <==> crate.Sys?)
    ensures Inv(Prepare(r, crate, request, cycle, lockfile))
  {
    var r' := Prepare(r, crate, request, cycle, lockfile);
    TargetMovesSources(r, crate, request, cycle);
    var (target, moved) := Target(r, crate, request, cycle);
    assert Head(r') == Head(r);
    if r'.work.docs != moved.work.docs {
      var tag := TagOf(crate, target.value.(dev := cycle));
      var repin := crate.Main? || moved.work.main.dev;
      CopiedVersions(r'.work, moved.index, ReleaseFiles(crate, tag) + if repin then [Manifest(Main)] else []);
    }
    forall c: Crate
      ensures InStep(VersionIn(Head(r'), c), VersionIn(r'.index, c), VersionIn(r'.work, c))
    {
      assert InStep(VersionIn(Head(r), c), VersionIn(r.index, c), VersionIn(r.work, c));
    }
    SameHistory(r, r');
  }

  lemma AbandonKeeps(r: Repo, crate: Crate)
    requires Inv(r)
    ensures Inv(Next(r, DoAbandon(crate)))
  {
    var r' := Next(r, DoAbandon(crate));
    CopiedVersions(Head(r), r.index, VersionFiles(crate));
    CopiedVersions(Head(r), r.work, VersionFiles(crate));
    forall c: Crate
      ensures InStep(VersionIn(Head(r'), c), VersionIn(r'.index, c), VersionIn(r'.work, c))
    {
      assert InStep(VersionIn(Head(r), c), VersionIn(r.index, c), VersionIn(r.work, c));
    }
    SameHistory(r, r');
  }

  lemma CommitKeeps(r: Repo)
    requires Inv(r)
    ensures Inv(Next(r, DoCommit))
  {
    var r' := Next(r, DoCommit);
    assert Head(r') == r.index;
    forall crate: Crate
      ensures InStep(VersionIn(Head(r'), crate), VersionIn(r'.index, crate), VersionIn(r'.work, crate))
      ensures BaseSound(r', crate) && !Below(Base(r', crate), Base(r, crate))
    {
      assert InStep(VersionIn(Head(r), crate), VersionIn(r.index, crate), VersionIn(r.work, crate));
      assert BaseSound(r, crate);
    }
    Committed(r, r');
  }

  lemma RevertKeeps(r: Repo, crate: Crate, reverted: Tree)
    requires Inv(r) && Enabled(r, DoRevert(crate, reverted))
    ensures Inv(Next(r, DoRevert(crate, reverted)))
  {
    var r' := Next(r, DoRevert(crate, reverted));
    assert Head(r') == reverted;
    forall c: Crate
      ensures BaseSound(r', c) && !Below(Base(r', c), Base(r, c))
    {
      assert BaseSound(r, c);
    }
    Committed(r, r');
  }

  // --- publish --------------------------------------------------------------------

  /** What publish was asked to release. */
  function Publishing(r: Repo, crate: Crate): Tag {
    TagOf(crate, VersionIn(r.work, crate))
  }

  /** A release may have touched only its own files. */
  lemma OthersClean(r: Repo, crate: Crate, f: File)
    requires WellFormed(r) && MayPublish(r, crate)
    requires f !in ReleaseFiles(crate, Publishing(r, crate))
    ensures !Dirty(r, f)
  {
  }

  /** What publish stages: its own files as it finished them, all else as it was. */
  lemma StagedFile(r: Repo, crate: Crate, today: nat, f: File)
    ensures var s := Staged(r, crate, today);
            Same(s.index, if f in ReleaseFiles(crate, Publishing(r, crate)) then s.work else r.index, f)
    ensures f !in ReleaseFiles(crate, Publishing(r, crate)) ==> Same(Staged(r, crate, today).work, r.work, f)
  {
    CopiedFiles(Finalized(r, crate, today).work, r.index, ReleaseFiles(crate, Publishing(r, crate)), f);
  }

  lemma StagedVersions(r: Repo, crate: Crate, today: nat, c: Crate)
    requires WellFormed(r) && MayPublish(r, crate)
    ensures var s := Staged(r, crate, today);
            VersionIn(s.index, c) == VersionIn(s.work, c)
            == if c == crate then Released(VersionIn(r.work, crate)) else VersionIn(Head(r), c)
    ensures c != crate ==> VersionIn(Head(r), c) == VersionIn(r.index, c) == VersionIn(r.work, c)
  {
    StagedFile(r, crate, today, Manifest(c));
    if c != crate {
      OthersClean(r, crate, Manifest(c));
    }
  }

  /** What publish commits is the release it tags: its version, marker cleared,
      with the vendored sources or the exact pin that version must have. */
  lemma StagedIsRelease(r: Repo, crate: Crate, today: nat)
    requires WellFormed(r) && MayPublish(r, crate)
    ensures IsRelease(Staged(r, crate, today).index, Publishing(r, crate))
  {
    StagedVersions(r, crate, today, Sys);
    StagedVersions(r, crate, today, Main);
    StagedFile(r, crate, today, Manifest(crate));
    StagedFile(r, crate, today, ReleaseFile(Publishing(r, crate)));
    if crate.Sys? {
      StagedFile(r, crate, today, VendorLink);
    }
  }

  lemma PublishInStep(r: Repo, crate: Crate, today: nat, fate: Fate, c: Crate)
    requires Inv(r) && MayPublish(r, crate)
    ensures WellFormed(Publish(r, crate, today, fate))
    ensures var r' := Publish(r, crate, today, fate);
            InStep(VersionIn(Head(r'), c), VersionIn(r'.index, c), VersionIn(r'.work, c))
  {
    assert InStep(VersionIn(Head(r), c), VersionIn(r.index, c), VersionIn(r.work, c));
    StagedVersions(r, crate, today, c);
    if fate.Succeeds? {
      PublishedRepo(r, crate, today);
    } else {
      FailedRepo(r, crate, today, fate);
      FailedVersions(r, crate, today, fate, c);
    }
    if !IsQuick(r, crate) {
      CleanVersions(r, c);
    }
  }

  /** The versions a failed publish leaves in the index and the worktree. */
  lemma FailedVersions(r: Repo, crate: Crate, today: nat, fate: Fate, c: Crate)
    requires WellFormed(r) && MayPublish(r, crate) && !fate.Succeeds?
    ensures var r', s := Publish(r, crate, today, fate), Staged(r, crate, today);
            var (i, w) := (VersionIn(r'.index, c), VersionIn(r'.work, c));
            if fate.LockfileFails? && VersionIn(r.work, crate).dev then
              i == VersionIn(r.index, c) && w == VersionIn(s.work, c)
            else if IsQuick(r, crate) || fate.CommitFails? || fate.LockfileFails? then
              i == VersionIn(s.index, c) && w == VersionIn(s.work, c)
            else
              i == w == VersionIn(Head(r), c)
  {
  }

  lemma PublishedRepo(r: Repo, crate: Crate, today: nat)
    requires WellFormed(r)
    ensures var r' := Publish(r, crate, today, Succeeds);
            var staged := Staged(r, crate, today);
            && r' == Repo(r.commits + [staged.index], |r.commits|, r.tags[Publishing(r, crate) := |r.commits|],
                          staged.index, staged.work, r.bases - {crate})
            && WellFormed(r') && Head(r') == staged.index
  {
  }

  lemma PublishedBase(r: Repo, crate: Crate, today: nat, c: Crate)
    requires Inv(r) && MayPublish(r, crate)
    ensures var r' := Publish(r, crate, today, Succeeds);
            && WellFormed(r') && BaseSound(r', c)
            && if c == crate
               then Below(Base(r, c), Publishing(r, crate).version) && Base(r', c) == Publishing(r, crate).version
               else Base(r', c) == Base(r, c)
  {
    PublishedRepo(r, crate, today);
    StagedVersions(r, crate, today, c);
    assert InStep(VersionIn(Head(r), c), VersionIn(r.index, c), VersionIn(r.work, c));
    assert BaseSound(r, c);
    if !IsQuick(r, crate) {
      CleanVersions(r, crate);
    }
  }

  lemma PublishedTags(r: Repo, crate: Crate, today: nat)
    requires Inv(r) && MayPublish(r, crate)
    ensures var r' := Publish(r, crate, today, Succeeds);
            WellFormed(r') && TagsSound(r') && TagsRise(r')
  {
    PublishedRepo(r, crate, today);
    StagedIsRelease(r, crate, today);
    PublishedBase(r, crate, today, crate);
    var tag := Publishing(r, crate);
    forall t <- r.tags
      ensures t.crate == crate ==> Below(t.version, tag.version)
    {
    }
  }

  lemma PublishedReaches(r: Repo, crate: Crate, today: nat)
    requires Inv(r) && MayPublish(r, crate)
    ensures var r' := Publish(r, crate, today, Succeeds);
            WellFormed(r') && (forall c: Crate :: BaseSound(r', c)) && TagsReached(r')
  {
    var r' := Publish(r, crate, today, Succeeds);
    forall c: Crate
      ensures WellFormed(r') && BaseSound(r', c)
    {
      PublishedBase(r, crate, today, c);
    }
    forall tag <- r'.tags
      ensures !Below(Base(r', tag.crate), tag.version)
    {
      PublishedBase(r, crate, today, tag.crate);
      PublishedRepo(r, crate, today);
    }
  }

  lemma PublishedKeeps(r: Repo, crate: Crate, today: nat)
    requires Inv(r) && MayPublish(r, crate)
    ensures Inv(Publish(r, crate, today, Succeeds))
  {
    PublishedReaches(r, crate, today);
    PublishedTags(r, crate, today);
    PublishInStep(r, crate, today, Succeeds, Sys);
    PublishInStep(r, crate, today, Succeeds, Main);
  }

  lemma FailedRepo(r: Repo, crate: Crate, today: nat, fate: Fate)
    requires WellFormed(r) && Publishing(r, crate) !in r.tags && !fate.Succeeds?
    ensures var r' := Publish(r, crate, today, fate);
            && r'.head == r.head && r'.tags == r.tags && r'.bases == r.bases && r.commits <= r'.commits
            && WellFormed(r') && Head(r') == Head(r)
  {
    assert r.tags - {Publishing(r, crate)} == r.tags;
  }

  lemma FailedPublishKeeps(r: Repo, crate: Crate, today: nat, fate: Fate)
    requires Inv(r) && MayPublish(r, crate) && !fate.Succeeds?
    ensures Inv(Publish(r, crate, today, fate))
  {
    FailedRepo(r, crate, today, fate);
    PublishInStep(r, crate, today, fate, Sys);
    PublishInStep(r, crate, today, fate, Main);
    var r' := Publish(r, crate, today, fate);
    forall c: Crate
      ensures BaseSound(r', c) && Base(r', c) == Base(r, c)
    {
      assert BaseSound(r, c);
    }
  }

  lemma StepKeeps(r: Repo, step: Step)
    requires Inv(r) && Enabled(r, step)
    ensures Inv(Next(r, step))
  {
    match step
    case DoPrepare(crate, request, cycle, lockfile) => PrepareKeeps(r, crate, request, cycle, lockfile);
    case DoEdit(index, work) =>
      forall c: Crate
        ensures InStep(VersionIn(Head(r), c), VersionIn(index, c), VersionIn(work, c))
      {
        assert InStep(VersionIn(Head(r), c), VersionIn(r.index, c), VersionIn(r.work, c));
        assert OnlyMoves(r, index, work, c);
      }
      SameHistory(r, Next(r, step));
    case DoCommit => CommitKeeps(r);
    case DoAbandon(crate) => AbandonKeeps(r, crate);
    case DoRevert(crate, reverted) => RevertKeeps(r, crate, reverted);
    case DoPublish(crate, today, fate) =>
      if fate.Succeeds? {
        PublishedKeeps(r, crate, today);
      } else {
        FailedPublishKeeps(r, crate, today, fate);
      }
  }

  // --- over every run --------------------------------------------------------------

  ghost predicate Runs(r: Repo, steps: seq<Step>, last: Repo)
    decreases |steps|
  {
    if steps == [] then last == r
    else WellFormed(r) && Enabled(r, steps[0]) && Runs(Next(r, steps[0]), steps[1..], last)
  }

  /** A checkout in which no release is under way. */
  ghost predicate AtRest(r: Repo) {
    && WellFormed(r) && CleanTree(r)
    && (forall crate: Crate :: !VersionIn(Head(r), crate).dev)
    && (forall tag <- r.tags :: !Below(VersionIn(Head(r), tag.crate), tag.version))
    && TagsSound(r) && TagsRise(r)
  }

  lemma {:induction false} RunKeeps(r: Repo, steps: seq<Step>, last: Repo)
    requires Inv(r) && Runs(r, steps, last)
    ensures Inv(last)
    decreases |steps|
  {
    if steps != [] {
      StepKeeps(r, steps[0]);
      RunKeeps(Next(r, steps[0]), steps[1..], last);
    }
  }

  lemma AtRestIsInv(r: Repo)
    requires AtRest(r)
    ensures Inv(r)
  {
    CleanVersions(r, Sys);
    CleanVersions(r, Main);
    forall crate: Crate
      ensures InStep(VersionIn(Head(r), crate), VersionIn(r.index, crate), VersionIn(r.work, crate))
      ensures BaseSound(r, crate) && Base(r, crate) == VersionIn(Head(r), crate)
    {
      CleanVersions(r, crate);
    }
  }

  lemma TagsInOrder(r: Repo, a: Tag, b: Tag)
    requires WellFormed(r) && TagsSound(r) && TagsRise(r)
    requires a in r.tags && b in r.tags && a.crate == b.crate
    ensures r.tags[a] < r.tags[b] <==> Below(a.version, b.version)
  {
    assert IsRelease(r.commits[r.tags[a]], a) && IsRelease(r.commits[r.tags[b]], b);
  }

  /** A crate's tags are on commits in the order of their versions. */
  lemma TagsRiseInEveryRun(r: Repo, steps: seq<Step>, last: Repo, a: Tag, b: Tag)
    requires AtRest(r) && Runs(r, steps, last)
    requires a in last.tags && b in last.tags && a.crate == b.crate
    ensures last.tags[a] < last.tags[b] <==> Below(a.version, b.version)
  {
    AtRestIsInv(r);
    RunKeeps(r, steps, last);
    TagsInOrder(last, a, b);
  }

  /** Every tag names a commit whose manifest has exactly that version with the
      marker cleared, whose release file is finished, and which vendors that
      version or pins exactly the `libosdp-sys` of the same commit. */
  lemma TagsNameReleasesInEveryRun(r: Repo, steps: seq<Step>, last: Repo, tag: Tag)
    requires AtRest(r) && Runs(r, steps, last)
    requires tag in last.tags
    ensures last.tags[tag] < |last.commits|
    ensures var t := last.commits[last.tags[tag]];
            && VersionIn(t, tag.crate) == tag.version && !tag.version.dev
            && tag in t.docs && !t.docs[tag].changes && t.docs[tag].valid
            && (tag.crate.Sys? ==> SameCore(t.vendor, tag.version))
            && (tag.crate.Main? ==> t.pin == Exact(t.sys))
  {
    AtRestIsInv(r);
    RunKeeps(r, steps, last);
    assert IsRelease(last.commits[last.tags[tag]], tag);
  }

  predicate TagsKept(r: Repo, r': Repo) {
    r.commits <= r'.commits && forall tag <- r.tags :: tag in r'.tags && r'.tags[tag] == r.tags[tag]
  }

  lemma PublishKeepsTags(r: Repo, crate: Crate, today: nat, fate: Fate)
    requires WellFormed(r) && MayPublish(r, crate)
    ensures TagsKept(r, Publish(r, crate, today, fate))
  {
    if fate.Succeeds? {
      PublishedRepo(r, crate, today);
    } else {
      FailedRepo(r, crate, today, fate);
    }
  }

  lemma StepKeepsTags(r: Repo, step: Step)
    requires WellFormed(r) && Enabled(r, step)
    ensures TagsKept(r, Next(r, step))
  {
    match step
    case DoPrepare(crate, request, cycle, lockfile) => TargetMovesSources(r, crate, request, cycle);
    case DoPublish(crate, today, fate) => PublishKeepsTags(r, crate, today, fate);
    case _ =>
  }

  /** No step moves or drops a tag, or changes a commit. */
  lemma {:induction false} TagsStayInEveryRun(r: Repo, steps: seq<Step>, last: Repo, tag: Tag)
    requires Inv(r) && Runs(r, steps, last)
    requires tag in r.tags
    ensures tag in last.tags && last.tags[tag] == r.tags[tag] < |r.commits|
    ensures r.commits <= last.commits
    decreases |steps|
  {
    if steps != [] {
      StepKeeps(r, steps[0]);
      StepKeepsTags(r, steps[0]);
      TagsStayInEveryRun(Next(r, steps[0]), steps[1..], last, tag);
    }
  }
}
