/** What a publish that fails leaves behind, and what the pre-commit gate makes
    of what it staged. */
module ReleaseRollback {
  import opened Wrappers
  import opened Release
  import opened ReleaseHistory

  predicate RollsBack(fate: Fate) {
    fate.SignFails? || fate.VerifyFails?
  }

  lemma TreesAlike(a: Tree, b: Tree)
    requires forall f: File :: Same(a, b, f)
    ensures a == b
  {
    assert Same(a, b, Manifest(Sys)) && Same(a, b, Manifest(Main)) && Same(a, b, VendorLink);
    assert Same(a, b, Bindings) && Same(a, b, Other);
    forall tag: Tag
      ensures (tag in a.docs <==> tag in b.docs) && (tag in a.docs ==> a.docs[tag] == b.docs[tag])
    {
      assert Same(a, b, ReleaseFile(tag));
    }
    assert a.docs == b.docs;
  }

  // --- the quick shape: a soft reset ----------------------------------------------

  /** A failed quick release leaves its own files finished, in the worktree and,
      unless it never got to stage them, in the index. */
  lemma QuickFailure(r: Repo, crate: Crate, today: nat, fate: Fate)
    requires WellFormed(r) && MayPublish(r, crate) && !fate.Succeeds? && IsQuick(r, crate)
    ensures var r' := Publish(r, crate, today, fate);
            && r'.work == Finalized(r, crate, today).work
            && (r'.index == r.index || r'.index == Staged(r, crate, today).index)
            && (RollsBack(fate) ==> r'.index == Staged(r, crate, today).index)
  {
  }

  lemma QuickRetry(r: Repo, crate: Crate, today: nat, fate: Fate)
    requires WellFormed(r) && MayPublish(r, crate) && !fate.Succeeds? && IsQuick(r, crate)
    ensures var r' := Publish(r, crate, today, fate);
            WellFormed(r') && IsQuick(r', crate) && MayPublish(r', crate)
  {
    var r' := Publish(r, crate, today, fate);
    FailedRepo(r, crate, today, fate);
    QuickFailure(r, crate, today, fate);
    StagedVersions(r, crate, today, crate);
    forall f: File | f !in ReleaseFiles(crate, Publishing(r, crate))
      ensures !Dirty(r', f)
    {
      StagedFile(r, crate, today, f);
      OthersClean(r, crate, f);
    }
    StagedVersions(r, crate, today, Sys);
  }

  // --- the cycle shape: a hard reset ------------------------------------------------

  /** A cycle that rolls back loses exactly the release file HEAD does not have. */
  lemma CycleRollback(r: Repo, crate: Crate, today: nat, fate: Fate)
    requires WellFormed(r) && MayPublish(r, crate) && RollsBack(fate) && !IsQuick(r, crate)
    ensures var r' := Publish(r, crate, today, fate);
            var tag := Publishing(r, crate);
            && r'.index == r.index
            && r'.work == if tag in Head(r).docs then r.work else r.work.(docs := r.work.docs - {tag})
  {
    var r' := Publish(r, crate, today, fate);
    var tag := Publishing(r, crate);
    var staged := Staged(r, crate, today);
    var kept := if tag in Head(r).docs then r.work else r.work.(docs := r.work.docs - {tag});
    assert r'.index == Head(r);
    forall f: File
      ensures Same(r'.index, r.index, f) && Same(r'.work, kept, f)
    {
      assert !Dirty(r, f);
      StagedFile(r, crate, today, f);
      StagedFile(r, crate, today, ReleaseFile(tag));
    }
    TreesAlike(r'.index, r.index);
    TreesAlike(r'.work, kept);
  }

  lemma CycleStuck(r: Repo, crate: Crate, today: nat, fate: Fate)
    requires WellFormed(r) && MayPublish(r, crate)
    requires !fate.Succeeds? && !RollsBack(fate) && !IsQuick(r, crate)
    ensures var r' := Publish(r, crate, today, fate);
            && WellFormed(r') && !IsQuick(r', crate) && !VersionIn(r'.work, crate).dev
            && Publishing(r, crate) in r'.work.docs
  {
    FailedRepo(r, crate, today, fate);
    StagedVersions(r, crate, today, crate);
  }

  // --- what a failed publish leaves ---------------------------------------------------

  /** Whether the failure leaves a checkout in which publish can be run again. */
  predicate CanRetry(r: Repo, crate: Crate, fate: Fate)
    requires WellFormed(r)
  {
    IsQuick(r, crate) || (RollsBack(fate) && Publishing(r, crate) in Head(r).docs)
  }

  /** HEAD, the tags and the tag to be made are as before. The same checks pass
      again exactly if the release was quick, or the Release commit had been made
      and HEAD had the release file: a release file never committed does not
      survive the hard reset, and a commit that fails in a cycle is not undone. */
  lemma FailureIsRetryable(r: Repo, crate: Crate, today: nat, fate: Fate)
    requires WellFormed(r) && MayPublish(r, crate) && !fate.Succeeds?
    ensures var r' := Publish(r, crate, today, fate);
            && WellFormed(r') && r'.head == r.head && Head(r') == Head(r) && r'.tags == r.tags
            && Publishing(r', crate) == Publishing(r, crate)
            && (MayPublish(r', crate) <==> CanRetry(r, crate, fate))
  {
    var r' := Publish(r, crate, today, fate);
    FailedRepo(r, crate, today, fate);
    if IsQuick(r, crate) {
      QuickRetry(r, crate, today, fate);
    } else if RollsBack(fate) {
      CycleRollback(r, crate, today, fate);
      if Publishing(r, crate) in Head(r).docs {
        assert r' == r.(commits := r'.commits);
        assert forall f: File :: Dirty(r', f) <==> Dirty(r, f);
      }
    } else {
      CycleStuck(r, crate, today, fate);
    }
  }

  /** The release file comes through a failure as it was but for its date, unless a
      cycle rolls back over one that HEAD does not have. The date is that of the
      publish, or, where a cycle was rolled back, the one it had. */
  lemma ReleaseFileSurvives(r: Repo, crate: Crate, today: nat, fate: Fate)
    requires WellFormed(r) && MayPublish(r, crate) && !fate.Succeeds?
    ensures var r' := Publish(r, crate, today, fate);
            var tag := Publishing(r, crate);
            && (tag in r'.work.docs <==> IsQuick(r, crate) || !RollsBack(fate) || tag in Head(r).docs)
            && (tag in r'.work.docs ==>
                  && r'.work.docs[tag].(date := 0) == r.work.docs[tag].(date := 0)
                  && r'.work.docs[tag].date ==
                     if RollsBack(fate) && !IsQuick(r, crate) then r.work.docs[tag].date else today)
  {
    if !IsQuick(r, crate) && RollsBack(fate) {
      CycleRollback(r, crate, today, fate);
    }
  }

  lemma RestagedAlike(r: Repo, r': Repo, crate: Crate, today: nat)
    requires r'.work == Finalized(r, crate, today).work
    requires r'.index == r.index || r'.index == Staged(r, crate, today).index
    ensures Staged(r', crate, today).index == Staged(r, crate, today).index
  {
    assert Publishing(r', crate) == Publishing(r, crate);
    assert Finalized(r', crate, today).work == Finalized(r, crate, today).work;
    forall f: File
      ensures Same(Staged(r', crate, today).index, Staged(r, crate, today).index, f)
    {
      StagedFile(r, crate, today, f);
      StagedFile(r', crate, today, f);
    }
    TreesAlike(Staged(r', crate, today).index, Staged(r, crate, today).index);
  }

  /** A publish run again after a failure releases what it would have released. */
  lemma RetryReleasesTheSame(r: Repo, crate: Crate, today: nat, fate: Fate)
    requires WellFormed(r) && MayPublish(r, crate) && !fate.Succeeds? && CanRetry(r, crate, fate)
    ensures WellFormed(Publish(r, crate, today, fate))
    ensures var direct := Publish(r, crate, today, Succeeds);
            var retried := Publish(Publish(r, crate, today, fate), crate, today, Succeeds);
            && WellFormed(direct) && WellFormed(retried)
            && Head(retried) == Head(direct)
            && retried.tags == r.tags[Publishing(r, crate) := retried.head]
            && direct.tags == r.tags[Publishing(r, crate) := direct.head]
  {
    var r' := Publish(r, crate, today, fate);
    FailureIsRetryable(r, crate, today, fate);
    PublishedRepo(r, crate, today);
    PublishedRepo(r', crate, today);
    if IsQuick(r, crate) {
      QuickFailure(r, crate, today, fate);
      RestagedAlike(r, r', crate, today);
    } else {
      CycleRollback(r, crate, today, fate);
    }
  }

  /** The Release commit changes no file but the release's own. */
  lemma ReleaseCommitIsOnlyTheRelease(r: Repo, crate: Crate, today: nat, f: File)
    requires WellFormed(r) && MayPublish(r, crate)
    requires f !in ReleaseFiles(crate, Publishing(r, crate))
    ensures var r' := Publish(r, crate, today, Succeeds);
            WellFormed(r') && Same(Head(r), Head(r'), f)
  {
    PublishedRepo(r, crate, today);
    StagedFile(r, crate, today, f);
    OthersClean(r, crate, f);
  }

  // --- the gate -----------------------------------------------------------------------

  lemma StagedRepo(r: Repo, crate: Crate, today: nat)
    requires WellFormed(r)
    ensures var s := Staged(r, crate, today);
            s == r.(index := s.index, work := s.work) && WellFormed(s) && Head(s) == Head(r)
  {
  }

  lemma OthersNotInCommit(r: Repo, crate: Crate, today: nat, f: File)
    requires WellFormed(r) && MayPublish(r, crate)
    requires f !in ReleaseFiles(crate, Publishing(r, crate))
    ensures WellFormed(Staged(r, crate, today)) && !InCommit(Staged(r, crate, today), f)
  {
    StagedRepo(r, crate, today);
    StagedFile(r, crate, today, f);
    OthersClean(r, crate, f);
  }

  /** What publish staged passes the gate for publish itself; any other commit is
      refused for as long as the release file is part of it. Without that file the
      gate lets the version bump through. */
  lemma GateOnStagedRelease(r: Repo, crate: Crate, today: nat, release: Option<Tag>)
    requires WellFormed(r) && MayPublish(r, crate)
    ensures var s := Staged(r, crate, today);
            var tag := Publishing(r, crate);
            && WellFormed(s)
            && (GatePasses(s, release) <==> release == Some(tag) || !InCommit(s, ReleaseFile(tag)))
  {
    var s := Staged(r, crate, today);
    var tag := Publishing(r, crate);
    StagedRepo(r, crate, today);
    StagedVersions(r, crate, today, crate);
    StagedIsRelease(r, crate, today);
    if !IsQuick(r, crate) {
      CleanVersions(r, crate);
    }
    assert InCommit(s, Manifest(crate));
    forall f: File | f !in ReleaseFiles(crate, tag)
      ensures !InCommit(s, f)
    {
      OthersNotInCommit(r, crate, today, f);
    }
  }

  // --- prepare, then publish --------------------------------------------------------------

  /** What prepare leaves of a clean checkout when it goes through. */
  lemma PreparedRepo(r: Repo, crate: Crate, request: Request, cycle: bool)
    requires WellFormed(r) && (request.Vendor? <==> crate.Sys?)
    requires Prepared(r, Prepare(r, crate, request, cycle, true), crate)
    ensures var p := Prepare(r, crate, request, cycle, true);
            var tag := Publishing(p, crate);
            var repin := crate.Main? || r.work.main.dev;
            && p == r.(index := p.index, work := p.work)
            && Below(VersionIn(r.work, crate), VersionIn(p.work, crate)) && !VersionIn(r.work, crate).dev
            && VersionIn(r.work, crate) == VersionIn(Head(r), crate)
            && tag !in r.tags && tag !in r.work.docs && p.work.docs == r.work.docs[tag := STUB]
            && (crate.Sys? ==> SameCore(p.work.vendor, p.work.sys) && p.work.main == r.work.main)
            && (crate.Main? ==> p.work == r.work.(main := p.work.main, pin := p.work.pin, docs := p.work.docs))
            && p.work.other == r.work.other
            && p.work.pin == (if repin then Exact(p.work.sys) else r.work.pin)
            && p.index == CopyFiles(p.work, r.index,
                                    ReleaseFiles(crate, tag) + if repin then [Manifest(Main)] else [])
  {
    TargetMovesSources(r, crate, request, cycle);
  }

  predicate Prepared(r: Repo, p: Repo, crate: Crate) {
    VersionIn(p.work, crate) != VersionIn(r.work, crate)
  }

  /** Prepare's checkout, once the release file is finished. */
  function Edited(p: Repo, crate: Crate, doc: Doc): Repo {
    p.(work := p.work.(docs := p.work.docs[Publishing(p, crate) := doc]))
  }

  /** What is dirty then: the release's own files, and the manifest with the pin if
      that changed. */
  lemma DirtOfPrepared(r: Repo, crate: Crate, request: Request, cycle: bool, doc: Doc)
    requires WellFormed(r) && CleanTree(r) && (request.Vendor? <==> crate.Sys?)
    requires Prepared(r, Prepare(r, crate, request, cycle, true), crate)
    ensures var p := Prepare(r, crate, request, cycle, true);
            var edited := Edited(p, crate, doc);
            && WellFormed(edited)
            && (OnlyReleaseDirt(edited, crate, Publishing(p, crate)) <==>
                crate.Main? || !r.work.main.dev || r.work.pin == Exact(p.work.sys))
  {
    var p := Prepare(r, crate, request, cycle, true);
    var tag, edited := Publishing(p, crate), Edited(p, crate, doc);
    PreparedRepo(r, crate, request, cycle);
    var repin := crate.Main? || r.work.main.dev;
    var files := ReleaseFiles(crate, tag) + if repin then [Manifest(Main)] else [];
    forall f: File | f !in files
      ensures !Dirty(edited, f)
    {
      CopiedFiles(p.work, r.index, files, f);
      assert !Dirty(r, f);
    }
    CopiedFiles(p.work, r.index, files, Manifest(Main));
    assert !Dirty(r, Manifest(Main));
    assert Dirty(edited, Manifest(Main)) <==> crate.Main? || (repin && r.work.pin != Exact(p.work.sys));
  }

  /** Once its release file is finished, what prepare left of a clean checkout can
      be published at once, with or without a marker; except that a `libosdp-sys`
      release cannot if it re-pinned a `libosdp` in mid-cycle. */
  lemma PrepareThenPublish(r: Repo, crate: Crate, request: Request, cycle: bool, doc: Doc)
    requires WellFormed(r) && CleanTree(r) && (request.Vendor? <==> crate.Sys?) && Finished(doc)
    requires Prepared(r, Prepare(r, crate, request, cycle, true), crate)
    ensures var p := Prepare(r, crate, request, cycle, true);
            var edited := Edited(p, crate, doc);
            && WellFormed(edited)
            && (MayPublish(edited, crate) <==>
                crate.Main? || !r.work.main.dev || r.work.pin == Exact(p.work.sys))
  {
    PreparedRepo(r, crate, request, cycle);
    DirtOfPrepared(r, crate, request, cycle, doc);
  }
}
