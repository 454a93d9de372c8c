/** What the release commands do to the files they are about: the versions and
    dates they write, and what undoes them. */
module ReleaseEffects {
  import opened Wrappers
  import opened Release
  import opened ReleaseHistory
  import opened ReleaseRollback

  // --- versions ------------------------------------------------------------------

  /** The order of versions is a strict total one, markers aside. */
  lemma VersionsAreOrdered(a: Version, b: Version, c: Version)
    ensures Below(a, b) || Below(b, a) || SameCore(a, b)
    ensures !(Below(a, b) && Below(b, a)) && !(Below(a, b) && SameCore(a, b))
    ensures Below(a, b) && Below(b, c) ==> Below(a, c)
    ensures SameCore(a, b) ==> (Below(a, c) <==> Below(b, c)) && (Below(c, a) <==> Below(c, b))
    ensures SameCore(a, b) <==> Released(a) == Released(b)
  {
  }

  /** A version with nothing below the part that is bumped. */
  predicate Round(v: Version, kind: Bump) {
    && (kind.Major? ==> v.minor == 0 && v.patch == 0)
    && (kind.Minor? ==> v.patch == 0)
  }

  /** Bumping gives the next such version: none lies between. */
  lemma BumpIsNext(v: Version, kind: Bump, w: Version)
    ensures Round(Bumped(v, kind), kind) && Below(v, Bumped(v, kind)) && !Bumped(v, kind).dev
    ensures Below(v, w) && Round(w, kind) ==> !Below(w, Bumped(v, kind))
    ensures Bumped(Version(1, 4, 2, false), Major) == Version(2, 0, 0, false)
    ensures Bumped(Version(1, 4, 2, false), Minor) == Version(1, 5, 0, false)
    ensures Bumped(Version(1, 4, 2, false), Patch) == Version(1, 4, 3, false)
  {
  }

  // --- prepare ---------------------------------------------------------------------

  /** `v` is the version asked for, where what it needs could be had. */
  predicate Asks(request: Request, state: Version, cycle: bool, v: Version) {
    match request
    case SetTo(version) => v == version
    case BumpBy(kind) => v == Bumped(state, kind)
    case Vendor(declared, checkout, build) =>
      && checkout.Some? && build.Some?
      && (declared.Some? ==> v == declared.value && SameCore(checkout.value, v))
      && (declared.None? ==> cycle && v == checkout.value)
  }

  /** Prepare moves on exactly if the crate is at rest, and the version asked for is
      above its own and new; then that is its version, marked exactly for a cycle. */
  lemma WhenPrepared(r: Repo, crate: Crate, request: Request, cycle: bool, lockfile: bool)
    requires WellFormed(r) && (request.Vendor? <==> crate.Sys?)
    ensures var state := VersionIn(r.work, crate);
            var p := Prepare(r, crate, request, cycle, lockfile);
            && (Prepared(r, p, crate) <==>
                && !state.dev && state == VersionIn(Head(r), crate)
                && exists v: Version ::
                     && Asks(request, state, cycle, v) && Below(state, v)
                     && Tag(crate, v.(dev := false)) !in r.work.docs && Tag(crate, v.(dev := false)) !in r.tags)
            && (Prepared(r, p, crate) ==>
                  exists v: Version :: Asks(request, state, cycle, v) && VersionIn(p.work, crate) == v.(dev := cycle))
            && (Prepared(r, p, crate) && crate.Sys? ==>
                  Some(p.work.vendor) == request.checkout && Some(p.work.bindings) == request.build)
  {
    var state := VersionIn(r.work, crate);
    var target := Target(r, crate, request, cycle).0;
    forall v: Version
      ensures Asks(request, state, cycle, v) && Below(state, v) <==> target == Some(v)
    {
    }
  }

  /** A refused prepare leaves everything but the vendored sources and bindings as it
      was; for `libosdp`, these as well. One whose lock file does not refresh writes
      only its manifests: nothing is staged, and there is no release file. */
  lemma PrepareRefused(r: Repo, crate: Crate, request: Request, cycle: bool, lockfile: bool)
    requires WellFormed(r) && (request.Vendor? <==> crate.Sys?)
    ensures var p := Prepare(r, crate, request, cycle, lockfile);
            && (Prepared(r, p, crate) && lockfile ==> Publishing(p, crate) in p.work.docs)
            && (!Prepared(r, p, crate) || !lockfile ==>
                  && p == r.(work := p.work) && p.work.docs == r.work.docs && p.work.other == r.work.other
                  && (crate.Main? ==> p.work.vendor == r.work.vendor && p.work.bindings == r.work.bindings))
            && (!Prepared(r, p, crate) ==>
                  p.work.sys == r.work.sys && p.work.main == r.work.main && p.work.pin == r.work.pin)
  {
    TargetMovesSources(r, crate, request, cycle);
  }

  /** The sources move as soon as what was asked for `libosdp-sys` can be checked out,
      and the bindings once that is built, even if the prepare is then refused. */
  lemma SourcesMoved(r: Repo, request: Request, cycle: bool, lockfile: bool)
    requires WellFormed(r) && request.Vendor?
    ensures var (p, state) := (Prepare(r, Sys, request, cycle, lockfile), r.work.sys);
            var asked := && !state.dev && state == Head(r).sys && request.checkout.Some?
                         && (if request.declared.Some? then Below(state, request.declared.value) else cycle);
            && p.work.vendor == (if asked then request.checkout.value else r.work.vendor)
            && p.work.bindings == (if asked && request.build.Some? then request.build.value else r.work.bindings)
  {
  }

  /** What was prepared cannot be published before its release file is edited. */
  lemma PreparedMustBeEdited(r: Repo, crate: Crate, request: Request, cycle: bool)
    requires WellFormed(r) && (request.Vendor? <==> crate.Sys?)
    requires Prepared(r, Prepare(r, crate, request, cycle, true), crate)
    ensures var p := Prepare(r, crate, request, cycle, true);
            WellFormed(p) && !MayPublish(p, crate) && p.work.docs[Publishing(p, crate)].changes
  {
    PreparedRepo(r, crate, request, cycle);
  }

  /** Abandoning brings back the crate's version files, and no others. */
  lemma AbandonRestores(r: Repo, crate: Crate, f: File)
    requires WellFormed(r)
    ensures var q := Next(r, DoAbandon(crate));
            && q == r.(index := q.index, work := q.work)
            && Same(q.index, if f in VersionFiles(crate) then Head(r) else r.index, f)
            && Same(q.work, if f in VersionFiles(crate) then Head(r) else r.work, f)
  {
    CopiedFiles(Head(r), r.index, VersionFiles(crate), f);
    CopiedFiles(Head(r), r.work, VersionFiles(crate), f);
  }

  /** What prepare did to a clean checkout, abandoning undoes, but for the release
      file it started and the pin of a `libosdp` that it pointed at the new
      `libosdp-sys`. */
  lemma AbandonUndoesPrepare(r: Repo, crate: Crate, request: Request, cycle: bool, f: File)
    requires WellFormed(r) && CleanTree(r) && (request.Vendor? <==> crate.Sys?)
    requires Prepared(r, Prepare(r, crate, request, cycle, true), crate)
    ensures var p := Prepare(r, crate, request, cycle, true);
            var q := Next(p, DoAbandon(crate));
            && q == r.(index := q.index, work := q.work)
            && (f != ReleaseFile(Publishing(p, crate)) && !(f == Manifest(Main) && crate.Sys? && r.work.main.dev) ==>
                  Same(q.index, r.index, f) && Same(q.work, r.work, f))
            && q.work.docs == r.work.docs[Publishing(p, crate) := STUB]
            && (crate.Sys? && r.work.main.dev ==> q.work.main == r.work.main && q.work.pin == Exact(p.work.sys))
  {
    var p := Prepare(r, crate, request, cycle, true);
    PreparedRepo(r, crate, request, cycle);
    AbandonRestores(p, crate, f);
    var files := ReleaseFiles(crate, Publishing(p, crate))
                 + if crate.Main? || r.work.main.dev then [Manifest(Main)] else [];
    CopiedFiles(p.work, r.index, files, f);
    assert !Dirty(r, f);
    AbandonRestores(p, crate, Manifest(Main));
    assert !Dirty(r, Manifest(Main));
    AbandonLeavesDocs(p, crate);
  }

  lemma AbandonLeavesDocs(r: Repo, crate: Crate)
    requires WellFormed(r)
    ensures Next(r, DoAbandon(crate)).work.docs == r.work.docs
  {
    var q := Next(r, DoAbandon(crate));
    forall t: Tag
      ensures Lookup(q.work.docs, t) == Lookup(r.work.docs, t)
    {
      AbandonRestores(r, crate, ReleaseFile(t));
    }
    assert forall t: Tag :: t in q.work.docs <==> Lookup(r.work.docs, t).Some?;
  }

  // --- publish -----------------------------------------------------------------------

  /** A publish commits the release file of the worktree, with the date of that day. */
  lemma PublishedFile(r: Repo, crate: Crate, today: nat)
    requires WellFormed(r) && Publishing(r, crate) in r.work.docs
    ensures var r' := Publish(r, crate, today, Succeeds);
            var tag := Publishing(r, crate);
            && WellFormed(r') && tag in Head(r').docs
            && (var (doc, was) := (Head(r').docs[tag], r.work.docs[tag]);
                doc.date == today && doc.prose == was.prose && doc.changes == was.changes && doc.valid == was.valid)
  {
    PublishedRepo(r, crate, today);
    StagedFile(r, crate, today, ReleaseFile(Publishing(r, crate)));
  }

  /** The commit a publish makes has the release file of the worktree, dated that
      day, the crate's version with the marker cleared, and all that the release may
      bring with it; the rest is HEAD's. The tag is on that commit. */
  lemma PublishedTree(r: Repo, crate: Crate, today: nat)
    requires WellFormed(r) && MayPublish(r, crate)
    ensures var r' := Publish(r, crate, today, Succeeds);
            var tag := Tag(crate, VersionIn(r.work, crate).(dev := false));
            && WellFormed(r') && tag in r'.tags && r'.tags[tag] == r'.head && r'.commits == r.commits + [Head(r')]
            && (var t, before := Head(r'), Head(r);
                && tag in t.docs && t.docs[tag] == r.work.docs[tag].(date := today)
                && (forall other: Tag | other != tag :: Lookup(t.docs, other) == Lookup(before.docs, other))
                && VersionIn(t, crate) == tag.version && t.other == before.other
                && (if crate.Sys?
                    then t.vendor == r.work.vendor && t.bindings == r.work.bindings
                         && t.main == before.main && t.pin == before.pin
                    else t.pin == r.work.pin && t.sys == before.sys
                         && t.vendor == before.vendor && t.bindings == before.bindings))
  {
    var tag := Publishing(r, crate);
    PublishedRepo(r, crate, today);
    CommittedFile(r, crate, today, Manifest(Sys));
    CommittedFile(r, crate, today, Manifest(Main));
    CommittedFile(r, crate, today, VendorLink);
    CommittedFile(r, crate, today, Bindings);
    CommittedFile(r, crate, today, Other);
    PublishedFile(r, crate, today);
    forall other: Tag | other != tag
      ensures Lookup(Head(Publish(r, crate, today, Succeeds)).docs, other) == Lookup(Head(r).docs, other)
    {
      CommittedFile(r, crate, today, ReleaseFile(other));
    }
  }

  predicate OfRelease(crate: Crate, tag: Tag, f: File) {
    || f == Manifest(crate) || f == ReleaseFile(tag)
    || (crate.Sys? && (f == VendorLink || f == Bindings))
  }

  lemma CommittedFile(r: Repo, crate: Crate, today: nat, f: File)
    requires WellFormed(r) && MayPublish(r, crate)
    ensures WellFormed(Publish(r, crate, today, Succeeds))
    ensures Same(Head(Publish(r, crate, today, Succeeds)),
                 if OfRelease(crate, Publishing(r, crate), f) then Finalized(r, crate, today).work else Head(r), f)
  {
    PublishedRepo(r, crate, today);
    StagedFile(r, crate, today, f);
    if f !in ReleaseFiles(crate, Publishing(r, crate)) {
      OthersClean(r, crate, f);
    }
  }

  /** A bump that was not committed cannot be published over an open cycle. */
  lemma BumpOverCycleIsRefused(r: Repo, crate: Crate)
    requires WellFormed(r) && VersionIn(Head(r), crate).dev
    requires Released(VersionIn(r.work, crate)) != Released(VersionIn(Head(r), crate))
    ensures !MayPublish(r, crate)
  {
  }

  // --- the gate ----------------------------------------------------------------------

  /** A commit that changes the manifest of `libosdp` passes the gate only with an
      exact pin there; that is all the gate asks of a commit that changes no release
      file. */
  lemma GateOnPin(r: Repo, release: Option<Tag>)
    requires WellFormed(r)
    ensures r.index.pin.Inexact? && !Same(Head(r), r.index, Manifest(Main)) ==> !GatePasses(r, release)
    ensures (forall tag: Tag :: Lookup(r.index.docs, tag) == Lookup(Head(r).docs, tag)) ==>
              (GatePasses(r, release) <==> Same(Head(r), r.index, Manifest(Main)) || r.index.pin.Exact?)
  {
    if forall tag: Tag :: Lookup(r.index.docs, tag) == Lookup(Head(r).docs, tag) {
      forall tag: Tag
        ensures !InCommit(r, ReleaseFile(tag))
      {
        assert Lookup(r.index.docs, tag) == Lookup(Head(r).docs, tag);
      }
    }
  }

  /** A commit that changes one release file and no manifest passes exactly if the
      file is not deleted, and is finished or the one of the crate's open cycle. */
  lemma GateOnReleaseFile(r: Repo, release: Option<Tag>, tag: Tag)
    requires WellFormed(r) && !tag.version.dev
    requires forall f: File :: InCommit(r, f) <==> f == ReleaseFile(tag)
    ensures GatePasses(r, release) <==>
            && tag in r.index.docs
            && (|| (!r.index.docs[tag].changes && r.index.docs[tag].valid)
                || VersionIn(r.work, tag.crate) == tag.version.(dev := true))
  {
  }

  // --- the pin over every run ------------------------------------------------------------

  /** HEAD, the tree each open cycle began with, and every commit from the `n`th on
      pin `libosdp-sys` exactly. */
  ghost predicate PinsExactly(r: Repo, n: nat)
    requires WellFormed(r)
  {
    && Head(r).pin.Exact?
    && (forall crate <- r.bases :: r.bases[crate].pin.Exact?)
    && (forall i | n <= i < |r.commits| :: r.commits[i].pin.Exact?)
  }

  lemma PinKeptByPublish(r: Repo, crate: Crate, today: nat, fate: Fate, n: nat)
    requires Inv(r) && MayPublish(r, crate) && PinsExactly(r, n) && n <= |r.commits|
    ensures WellFormed(Publish(r, crate, today, fate)) && PinsExactly(Publish(r, crate, today, fate), n)
  {
    StagedIsRelease(r, crate, today);
    StagedFile(r, crate, today, Manifest(Main));
    if crate.Sys? {
      OthersClean(r, crate, Manifest(Main));
    }
    var staged := Staged(r, crate, today).index;
    assert staged.pin.Exact?;
    assert forall i | n <= i < |r.commits| + 1 :: (r.commits + [staged])[i].pin.Exact?;
    if fate.Succeeds? {
      PublishedRepo(r, crate, today);
    } else {
      FailedRepo(r, crate, today, fate);
    }
  }

  lemma PinKeptByCommit(r: Repo, n: nat)
    requires WellFormed(r) && GatePasses(r, None) && PinsExactly(r, n) && n <= |r.commits|
    ensures WellFormed(Next(r, DoCommit)) && PinsExactly(Next(r, DoCommit), n)
  {
    GateOnPin(r, None);
  }

  lemma PinKeptByStep(r: Repo, step: Step, n: nat)
    requires Inv(r) && Enabled(r, step) && PinsExactly(r, n) && n <= |r.commits|
    ensures WellFormed(Next(r, step)) && PinsExactly(Next(r, step), n)
  {
    match step
    case DoPrepare(crate, request, cycle, lockfile) => TargetMovesSources(r, crate, request, cycle);
    case DoCommit => PinKeptByCommit(r, n);
    case DoPublish(crate, today, fate) => PinKeptByPublish(r, crate, today, fate, n);
    case _ =>
  }

  lemma {:induction false} PinsByRun(r: Repo, steps: seq<Step>, last: Repo, n: nat)
    requires Inv(r) && Runs(r, steps, last) && PinsExactly(r, n) && n <= |r.commits|
    ensures WellFormed(last) && PinsExactly(last, n)
    decreases |steps|
  {
    if steps != [] {
      StepKeeps(r, steps[0]);
      StepKeepsTags(r, steps[0]);
      PinKeptByStep(r, steps[0], n);
      PinsByRun(Next(r, steps[0]), steps[1..], last, n);
    }
  }

  /** Over every run from a checkout at rest whose `libosdp` pins `libosdp-sys`
      exactly, so does HEAD and every commit that was added, published or not. */
  lemma PinStaysExactInEveryRun(r: Repo, steps: seq<Step>, last: Repo)
    requires AtRest(r) && r.bases == map[] && Runs(r, steps, last) && Head(r).pin.Exact?
    ensures WellFormed(last) && Head(last).pin.Exact?
    ensures forall i | |r.commits| <= i < |last.commits| :: last.commits[i].pin.Exact?
  {
    AtRestIsInv(r);
    PinsByRun(r, steps, last, |r.commits|);
  }
}
