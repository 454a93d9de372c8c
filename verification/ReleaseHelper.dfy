/** The release commands, as they change a checkout step by step. */
module ReleaseHelper {
  import opened Wrappers
  import R = Release
  import opened H = ReleaseHistory
  import opened E = ReleaseEffects

  type Crate = R.Crate
  type Tag = R.Tag
  type File = R.File

  class Checkout {
    var commits: seq<R.Tree>
    var head: nat
    var tags: map<Tag, nat>
    var index: R.Tree
    var work: R.Tree
    ghost var bases: map<Crate, R.Tree>

    ghost function Value(): R.Repo
      reads this
    {
      R.Repo(commits, head, tags, index, work, bases)
    }

    ghost predicate Valid()
      reads this
    {
      R.WellFormed(Value())
    }

    constructor (tree: R.Tree)
      ensures Valid()
      ensures Value() == R.Repo([tree], 0, map[], tree, tree, map[])
    {
      commits, head, tags, index, work, bases := [tree], 0, map[], tree, tree, map[];
    }

    // --- git -------------------------------------------------------------------

    method GitAdd(files: seq<File>)
      modifies this`index
      ensures index == R.CopyFiles(work, old(index), files)
    {
      var i := 0;
      while i < |files|
        invariant 0 <= i <= |files|
        invariant R.CopyFiles(work, index, files[i..]) == R.CopyFiles(work, old(index), files)
      {
        index := R.CopyFile(work, index, files[i]);
        assert files[i..][1..] == files[i + 1..];
        i := i + 1;
      }
    }

    method GitCommit()
      modifies this`commits, this`head
      ensures Value() == R.Commit(old(Value()))
    {
      head := |commits|;
      commits := commits + [index];
    }

    method GitReset(hard: bool, commit: nat)
      requires commit < |commits|
      modifies this`head, this`index, this`work
      ensures Value() == if hard then R.HardReset(old(Value()), commit) else R.SoftReset(old(Value()), commit)
    {
      head := commit;
      if hard {
        var t := commits[commit];
        var untracked := work.docs - index.docs.Keys - t.docs.Keys;
        work := t.(docs := t.docs + untracked);
        index := t;
        assert untracked ==
               map tag | tag in old(work).docs && tag !in old(index).docs && tag !in t.docs :: old(work).docs[tag];
      }
    }

    // --- guards -------------------------------------------------------------------

    /** The tracked files `git status` lists. */
    method PorcelainNames() returns (names: set<File>)
      requires Valid()
      ensures forall f: File :: f in names <==> R.Dirty(Value(), f)
    {
      var top := commits[head];
      var todo := top.docs.Keys + index.docs.Keys;
      ghost var all := todo;
      names := set f | f in {R.Manifest(R.Sys), R.Manifest(R.Main), R.VendorLink, R.Bindings, R.Other}
                    && !(R.Same(top, index, f) && R.Same(index, work, f));
      while todo != {}
        invariant todo <= all
        invariant forall f: File ::
                    f in names <==>
                    R.Dirty(Value(), f) && (f.ReleaseFile? ==> f.tag !in todo)
      {
        var tag :| tag in todo;
        if !(R.Same(top, index, R.ReleaseFile(tag)) && R.Same(index, work, R.ReleaseFile(tag))) {
          names := names + {R.ReleaseFile(tag)};
        }
        todo := todo - {tag};
      }
    }

    method RequireCleanTree() returns (ok: bool)
      requires Valid()
      ensures ok <==> R.CleanTree(Value())
    {
      var names := PorcelainNames();
      ok := names == {};
    }

    method RequireReleaseOnlyDirt(crate: Crate, tag: Tag) returns (ok: bool)
      requires Valid()
      ensures ok <==> R.OnlyReleaseDirt(Value(), crate, tag)
    {
      var names := PorcelainNames();
      ok := forall f <- names :: f in R.VersionFiles(crate) || f == R.ReleaseFile(tag);
    }

    method ReleaseInvariants(crate: Crate, version: R.Version) returns (ok: bool)
      ensures ok <==> R.Invariants(work, crate, version)
    {
      ok := !version.dev;
      if crate.Sys? && work.vendor.(dev := false) != version.(dev := false) {
        ok := false;
      }
      if crate.Main? {
        if work.pin.Inexact? {
          ok := false;
        } else if work.pin.version != work.sys {
          ok := false;
        }
      }
    }

    // --- writing ------------------------------------------------------------------

    method WriteState(crate: Crate, version: R.Version)
      modifies this`work
      ensures work == R.SetVersion(old(work), crate, version)
    {
      match crate
      case Sys => work := work.(sys := version);
      case Main => work := work.(main := version);
    }

    method WritePin(version: R.Version)
      modifies this`work
      ensures work == old(work).(pin := R.Exact(version))
    {
      work := work.(pin := R.Exact(version));
    }

    /** Re-points a `libosdp` that is in mid-cycle. */
    method RefreshPinIfMidCycle() returns (wrote: bool)
      modifies this`work
      ensures wrote == old(work).main.dev
      ensures work == if wrote then old(work).(pin := R.Exact(old(work).sys)) else old(work)
    {
      if !work.main.dev {
        return false;
      }
      WritePin(work.sys);
      return true;
    }

    method StampReleaseDate(tag: Tag, today: nat)
      requires tag in work.docs
      modifies this`work
      ensures work == R.Stamped(old(work), tag, today)
      ensures tag in work.docs && work.docs[tag].date == today
    {
      work := work.(docs := work.docs[tag := work.docs[tag].(date := today)]);
    }

    // --- commands ---------------------------------------------------------------------

    method Resolve(crate: Crate, request: R.Request, cycle: bool) returns (target: Option<R.Version>)
      modifies this`work
      ensures (target, Value()) == R.Target(old(Value()), crate, request, cycle)
    {
      var state := R.VersionIn(work, crate);
      match request
      case SetTo(version) =>
        if !R.Below(state, version) {
          return None;
        }
        return Some(version);
      case BumpBy(kind) =>
        return Some(R.Bumped(state, kind));
      case Vendor(declared, checkout, build) =>
        if declared.None? && !cycle {
          return None;
        }
        if declared.Some? && !R.Below(state, declared.value) {
          return None;
        }
        if checkout.None? {
          return None;
        }
        work := work.(vendor := checkout.value);
        if build.None? {
          return None;
        }
        work := work.(bindings := build.value);
        if declared.Some? && !R.SameCore(work.vendor, declared.value) {
          return None;
        }
        target := if declared.Some? then declared else Some(work.vendor);
        if !R.Below(state, target.value) {
          return None;
        }
    }

    method Prepare(crate: Crate, request: R.Request, cycle: bool, lockfile: bool)
      requires Valid() && (request.Vendor? <==> crate.Sys?)
      modifies this`index, this`work
      ensures Value() == R.Prepare(old(Value()), crate, request, cycle, lockfile)
      ensures old(Inv(Value())) ==> Inv(Value())
    {
      if old(Inv(Value())) {
        PrepareKeeps(Value(), crate, request, cycle, lockfile);
      }
      var state := R.VersionIn(work, crate);
      if state.dev || state != R.VersionIn(commits[head], crate) {
        return;
      }
      var target := Resolve(crate, request, cycle);
      if target.None? {
        return;
      }
      var next := target.value.(dev := cycle);
      var tag := R.TagOf(crate, next);
      if tag in work.docs || tag in tags {
        return;
      }
      WriteState(crate, next);
      var stagedPin := true;
      if crate.Main? {
        WritePin(work.sys);
      } else {
        stagedPin := RefreshPinIfMidCycle();
      }
      if !lockfile {
        return;
      }
      work := work.(docs := work.docs[tag := R.STUB]);
      var staged := R.ReleaseFiles(crate, tag);
      GitAdd(staged + if stagedPin then [R.Manifest(R.Main)] else []);
    }

    /** Whether the release passed every check that needs no network. */
    method Checked(crate: Crate) returns (ok: bool)
      requires Valid()
      ensures ok <==> R.MayPublish(Value(), crate)
    {
      var state, top := R.VersionIn(work, crate), R.VersionIn(commits[head], crate);
      var quick := !R.SameCore(state, top);
      if (!quick && !state.dev) || (quick && top.dev) {
        return false;
      }
      var tag := R.TagOf(crate, state);
      if quick {
        ok := RequireReleaseOnlyDirt(crate, tag);
      } else {
        ok := RequireCleanTree();
      }
      if !ok || tag in tags || tag !in work.docs || !R.Finished(work.docs[tag]) {
        return false;
      }
      ok := ReleaseInvariants(crate, R.Released(state));
    }

    /** `passes` says whether the registry and the signing key are in order. */
    method Publish(crate: Crate, passes: bool, today: nat, fate: R.Fate) returns (begun: bool)
      requires Valid()
      modifies this
      ensures begun <==> old(R.MayPublish(Value(), crate)) && passes
      ensures Value() == if begun then R.Publish(old(Value()), crate, today, fate) else old(Value())
      ensures begun && fate.Succeeds? ==> Valid() && Dated(crate, today)
      ensures old(Inv(Value())) ==> Inv(Value())
    {
      begun := Checked(crate);
      if !begun || !passes {
        return false;
      }
      if old(Inv(Value())) {
        StepKeeps(Value(), R.DoPublish(crate, today, fate));
      }
      MakeRelease(crate, today, fate);
    }

    /** HEAD has the release file of the worktree as it was, with this date. */
    twostate predicate Dated(crate: Crate, today: nat)
      requires Valid()
      reads this
    {
      var tag := R.Tag(crate, R.VersionIn(old(work), crate).(dev := false));
      && tag in old(work).docs && tag in commits[head].docs
      && (var (doc, was) := (commits[head].docs[tag], old(work).docs[tag]);
          doc.date == today && doc.prose == was.prose && doc.changes == was.changes && doc.valid == was.valid)
    }

    method MakeRelease(crate: Crate, today: nat, fate: R.Fate)
      requires Valid() && R.TagOf(crate, R.VersionIn(work, crate)) in work.docs
      modifies this
      ensures Value() == R.Publish(old(Value()), crate, today, fate)
      ensures fate.Succeeds? ==> Valid() && Dated(crate, today)
    {
      var state := R.VersionIn(work, crate);
      var quick := !R.SameCore(state, R.VersionIn(commits[head], crate));
      var tag := R.TagOf(crate, state);
      var saved := head;
      PublishedFile(Value(), crate, today);
      StampReleaseDate(tag, today);
      if state.dev {
        WriteState(crate, R.Released(state));
        if fate.LockfileFails? {
          return;
        }
      }
      GitAdd(R.ReleaseFiles(crate, tag));
      assert Value() == R.Staged(old(Value()), crate, today);
      if fate.CommitFails? || fate.LockfileFails? {
        return;
      }
      GitCommit();
      label committed:
      if fate.SignFails? {
        Rollback(tag, quick, saved);
        return;
      }
      tags := tags[tag := head];
      if fate.VerifyFails? {
        assert tags - {tag} == old@committed(tags) - {tag};
        Rollback(tag, quick, saved);
        return;
      }
      bases := bases - {crate};
    }

    method Rollback(tag: Tag, quick: bool, saved: nat)
      requires saved < |commits|
      modifies this`tags, this`head, this`index, this`work
      ensures var untagged := old(Value()).(tags := old(tags) - {tag});
              Value() == if quick then R.SoftReset(untagged, saved) else R.HardReset(untagged, saved)
    {
      tags := tags - {tag};
      GitReset(!quick, saved);
    }

    // --- the gate -----------------------------------------------------------------------

    method CheckManifests(release: Option<Tag>) returns (ok: bool)
      requires Valid()
      ensures ok <==> forall crate: Crate ::
                        var tag := R.TagOf(crate, R.VersionIn(index, crate));
                        (R.InCommit(Value(), R.Manifest(crate)) && !R.VersionIn(index, crate).dev
                         && R.InCommit(Value(), R.ReleaseFile(tag))) ==> release == Some(tag)
    {
      var crates := [R.Sys, R.Main];
      var top := commits[head];
      for i := 0 to 2
        invariant forall crate <- crates[..i] ::
                    var tag := R.TagOf(crate, R.VersionIn(index, crate));
                    (R.InCommit(Value(), R.Manifest(crate)) && !R.VersionIn(index, crate).dev
                     && R.InCommit(Value(), R.ReleaseFile(tag))) ==> release == Some(tag)
      {
        var crate := crates[i];
        if !R.Same(top, index, R.Manifest(crate)) {
          var version := R.VersionIn(index, crate);
          var tag := R.TagOf(crate, version);
          if !version.dev && !R.Same(top, index, R.ReleaseFile(tag)) && release != Some(tag) {
            return false;
          }
        }
      }
      assert R.Sys in crates && R.Main in crates;
      return true;
    }

    /** Whether what is staged may be committed. */
    method CheckStaged(release: Option<Tag>) returns (ok: bool)
      requires Valid()
      ensures ok <==> R.GatePasses(Value(), release)
    {
      var top := commits[head];
      ok := CheckManifests(release);
      if !ok || (!R.Same(top, index, R.Manifest(R.Main)) && index.pin.Inexact?) {
        return false;
      }
      var todo := set tag | tag in top.docs.Keys + index.docs.Keys && !R.Same(top, index, R.ReleaseFile(tag));
      while todo != {}
        invariant forall tag <- todo :: R.InCommit(Value(), R.ReleaseFile(tag))
        invariant forall tag: Tag | R.InCommit(Value(), R.ReleaseFile(tag)) && tag !in todo ::
                    && tag in index.docs
                    && (var current := R.VersionIn(work, tag.crate);
                        (current.dev && R.Released(current) == tag.version) || R.Finished(index.docs[tag]))
      {
        var tag :| tag in todo;
        if tag !in index.docs {
          return false;
        }
        var current := R.VersionIn(work, tag.crate);
        if !(current.dev && R.Released(current) == tag.version) && !R.Finished(index.docs[tag]) {
          return false;
        }
        todo := todo - {tag};
      }
    }
  }
}
