/** The release helper over an abstract git checkout: what prepare, publish
    with its rollback, and the pre-commit gate do to it. */
module Release {
  import opened Wrappers

  // --- versions ------------------------------------------------------------

  datatype Version = Version(major: nat, minor: nat, patch: nat, dev: bool)

  /** The order of versions, the pre-release marker aside. */
  predicate Below(a: Version, b: Version) {
    || a.major < b.major
    || (a.major == b.major && a.minor < b.minor)
    || (a.major == b.major && a.minor == b.minor && a.patch < b.patch)
  }

  predicate SameCore(a: Version, b: Version) {
    a.(dev := false) == b.(dev := false)
  }

  function Released(v: Version): Version {
    v.(dev := false)
  }

  datatype Bump = Major | Minor | Patch

  function Bumped(v: Version, kind: Bump): Version {
    match kind
    case Major => Version(v.major + 1, 0, 0, false)
    case Minor => Version(v.major, v.minor + 1, 0, false)
    case Patch => Version(v.major, v.minor, v.patch + 1, false)
  }

  // --- the checkout ----------------------------------------------------------

  datatype Crate = Sys | Main

  /** A release tag, and the name of its release file. */
  datatype Tag = Tag(crate: Crate, version: Version)

  function TagOf(crate: Crate, v: Version): Tag {
    Tag(crate, Released(v))
  }

  /** What `libosdp` requires of `libosdp-sys`. */
  datatype Pin = Exact(version: Version) | Inexact

  /** A release file: its prose, whether it has the changes section that
      prepare leaves, whether it is otherwise valid for its tag, and its date. */
  datatype Doc = Doc(prose: nat, changes: bool, valid: bool, date: nat)

  predicate Finished(doc: Doc) {
    !doc.changes && doc.valid
  }

  /** The tracked files. `vendor` is the version the vendored sources declare;
      `other` stands for every file no release touches. */
  datatype Tree = Tree(
    sys: Version, main: Version, pin: Pin, vendor: Version, bindings: nat,
    docs: map<Tag, Doc>, other: nat)

  function VersionIn(t: Tree, crate: Crate): Version {
    if crate.Sys? then t.sys else t.main
  }

  function SetVersion(t: Tree, crate: Crate, v: Version): Tree {
    if crate.Sys? then t.(sys := v) else t.(main := v)
  }

  datatype File = Manifest(crate: Crate) | VendorLink | Bindings | ReleaseFile(tag: Tag) | Other

  predicate Same(a: Tree, b: Tree, f: File) {
    match f
    case Manifest(Sys) => a.sys == b.sys
    case Manifest(Main) => a.main == b.main && a.pin == b.pin
    case VendorLink => a.vendor == b.vendor
    case Bindings => a.bindings == b.bindings
    case ReleaseFile(tag) =>
      (tag in a.docs <==> tag in b.docs) && (tag in a.docs ==> a.docs[tag] == b.docs[tag])
    case Other => a.other == b.other
  }

  /** `to`, with file `f` as it is in `from`. */
  function CopyFile(from: Tree, to: Tree, f: File): Tree {
    match f
    case Manifest(Sys) => to.(sys := from.sys)
    case Manifest(Main) => to.(main := from.main, pin := from.pin)
    case VendorLink => to.(vendor := from.vendor)
    case Bindings => to.(bindings := from.bindings)
    case ReleaseFile(tag) =>
      to.(docs := if tag in from.docs then to.docs[tag := from.docs[tag]] else to.docs - {tag})
    case Other => to.(other := from.other)
  }

  function CopyFiles(from: Tree, to: Tree, files: seq<File>): Tree
    decreases |files|
  {
    if files == [] then to else CopyFiles(from, CopyFile(from, to, files[0]), files[1..])
  }

  /** The commits in the order they were made, with HEAD and the tags on them,
      the index and the worktree; and, for a crate in a prepared cycle, the
      tree the Prepare commit changed. */
  datatype Repo = Repo(
    commits: seq<Tree>, head: nat, tags: map<Tag, nat>, index: Tree, work: Tree,
    bases: map<Crate, Tree>)

  predicate WellFormed(r: Repo) {
    r.head < |r.commits| && forall t <- r.tags :: r.tags[t] < |r.commits|
  }

  function Head(r: Repo): Tree
    requires WellFormed(r)
  {
    r.commits[r.head]
  }

  function VersionFiles(crate: Crate): seq<File> {
    if crate.Sys? then [Manifest(Sys), VendorLink, Bindings] else [Manifest(Main)]
  }

  // --- guards ------------------------------------------------------------------

  predicate Tracked(r: Repo, f: File)
    requires WellFormed(r)
  {
    f.ReleaseFile? ==> f.tag in Head(r).docs || f.tag in r.index.docs
  }

  /** Whether `git status` lists a tracked file. */
  predicate Dirty(r: Repo, f: File)
    requires WellFormed(r)
  {
    Tracked(r, f) && !(Same(Head(r), r.index, f) && Same(r.index, r.work, f))
  }

  ghost predicate CleanTree(r: Repo)
    requires WellFormed(r)
  {
    forall f: File :: !Dirty(r, f)
  }

  ghost predicate OnlyReleaseDirt(r: Repo, crate: Crate, tag: Tag)
    requires WellFormed(r)
  {
    forall f: File :: Dirty(r, f) ==> f in VersionFiles(crate) || f == ReleaseFile(tag)
  }

  /** A publish that finds its bump uncommitted finishes a quick release. */
  predicate IsQuick(r: Repo, crate: Crate)
    requires WellFormed(r)
  {
    !SameCore(VersionIn(r.work, crate), VersionIn(Head(r), crate))
  }

  predicate Invariants(t: Tree, crate: Crate, v: Version) {
    && !v.dev
    && (crate.Sys? ==> SameCore(t.vendor, v))
    && (crate.Main? ==> t.pin == Exact(t.sys))
  }

  /** Everything publish checks in the checkout before it touches anything. */
  ghost predicate MayPublish(r: Repo, crate: Crate)
    requires WellFormed(r)
  {
    var state, head := VersionIn(r.work, crate), VersionIn(Head(r), crate);
    var tag := TagOf(crate, state);
    && (!IsQuick(r, crate) ==> state.dev)
    && (IsQuick(r, crate) ==> !head.dev)
    && (if IsQuick(r, crate) then OnlyReleaseDirt(r, crate, tag) else CleanTree(r))
    && tag !in r.tags
    && tag in r.work.docs && Finished(r.work.docs[tag])
    && Invariants(r.work, crate, Released(state))
  }

  // --- publish -----------------------------------------------------------------

  function Add(r: Repo, files: seq<File>): Repo {
    r.(index := CopyFiles(r.work, r.index, files))
  }

  function Commit(r: Repo): Repo {
    r.(commits := r.commits + [r.index], head := |r.commits|)
  }

  function SoftReset(r: Repo, commit: nat): Repo {
    r.(head := commit)
  }

  /** Tracked files go back to the commit; untracked ones stay. */
  function HardReset(r: Repo, commit: nat): Repo
    requires commit < |r.commits|
  {
    var t := r.commits[commit];
    var untracked := map tag | tag in r.work.docs && tag !in r.index.docs && tag !in t.docs :: r.work.docs[tag];
    r.(head := commit, index := t, work := t.(docs := t.docs + untracked))
  }

  function Stamped(t: Tree, tag: Tag, today: nat): Tree {
    if tag in t.docs then t.(docs := t.docs[tag := t.docs[tag].(date := today)]) else t
  }

  function ReleaseFiles(crate: Crate, tag: Tag): seq<File> {
    VersionFiles(crate) + [ReleaseFile(tag)]
  }

  /** How far a publish gets once its checks passed. */
  datatype Fate = LockfileFails | CommitFails | SignFails | VerifyFails | Succeeds

  /** The worktree once the date is stamped and the marker cleared. */
  function Finalized(r: Repo, crate: Crate, today: nat): Repo {
    var state := VersionIn(r.work, crate);
    var work := Stamped(r.work, TagOf(crate, state), today);
    r.(work := if state.dev then SetVersion(work, crate, Released(state)) else work)
  }

  function Staged(r: Repo, crate: Crate, today: nat): Repo {
    Add(Finalized(r, crate, today), ReleaseFiles(crate, TagOf(crate, VersionIn(r.work, crate))))
  }

  /** The publish commands, after the checks. A failure to sign or verify rolls
      back; the lock file is refreshed only when a marker was cleared. */
  function Publish(r: Repo, crate: Crate, today: nat, fate: Fate): Repo
    requires WellFormed(r)
  {
    var state := VersionIn(r.work, crate);
    var tag := TagOf(crate, state);
    if fate.LockfileFails? && state.dev then Finalized(r, crate, today)
    else if fate.CommitFails? || fate.LockfileFails? then Staged(r, crate, today)
    else
      var c := Commit(Staged(r, crate, today));
      if fate.Succeeds? then c.(tags := c.tags[tag := c.head], bases := c.bases - {crate})
      else
        var untagged := c.(tags := c.tags - {tag});
        if IsQuick(r, crate) then SoftReset(untagged, r.head) else HardReset(untagged, r.head)
  }

  // --- the pre-commit gate -------------------------------------------------------

  predicate InCommit(r: Repo, f: File)
    requires WellFormed(r)
  {
    !Same(Head(r), r.index, f)
  }

  /** Whether the gate lets the index be committed; `release` is the tag that
      publish announces, if it is publish that commits. */
  ghost predicate GatePasses(r: Repo, release: Option<Tag>)
    requires WellFormed(r)
  {
    && (forall crate: Crate ::
          var tag := TagOf(crate, VersionIn(r.index, crate));
          InCommit(r, Manifest(crate)) && !VersionIn(r.index, crate).dev && InCommit(r, ReleaseFile(tag)) ==>
            release == Some(tag))
    && (InCommit(r, Manifest(Main)) ==> r.index.pin.Exact?)
    && (forall tag: Tag :: InCommit(r, ReleaseFile(tag)) ==>
          && tag in r.index.docs
          && (var current := VersionIn(r.work, tag.crate);
              (current.dev && Released(current) == tag.version) || Finished(r.index.docs[tag])))
  }

  // --- prepare -------------------------------------------------------------------

  /** What a prepare was asked for and what it finds. For `libosdp-sys`: the
      version the vendor ref names, if it names one, and what the checked-out
      sources declare, with their bindings, if checkout and build succeed. */
  datatype Request =
    | Vendor(declared: Option<Version>, checkout: Option<Version>, build: Option<nat>)
    | SetTo(version: Version)
    | BumpBy(kind: Bump)

  const STUB := Doc(0, true, false, 0)

  /** The version to prepare, and the checkout as it is left when it is refused. */
  function Target(r: Repo, crate: Crate, request: Request, cycle: bool): (Option<Version>, Repo) {
    var state := VersionIn(r.work, crate);
    match request
    case SetTo(v) => (if Below(state, v) then Some(v) else None, r)
    case BumpBy(kind) => (Some(Bumped(state, kind)), r)
    case Vendor(declared, checkout, build) =>
      if (declared.None? && !cycle) || (declared.Some? && !Below(state, declared.value)) || checkout.None?
      then (None, r)
      else
        var vendored := checkout.value;
        var moved := r.(work := r.work.(vendor := vendored));
        if build.None? then (None, moved)
        else
          var built := moved.(work := moved.work.(bindings := build.value));
          if declared.Some? && !SameCore(vendored, declared.value) then (None, built)
          else
            var target := if declared.Some? then declared.value else vendored;
            (if Below(state, target) then Some(target) else None, built)
  }

  /** The prepare commands; `lockfile` says whether the lock file refreshes. */
  function Prepare(r: Repo, crate: Crate, request: Request, cycle: bool, lockfile: bool): Repo
    requires WellFormed(r) && (request.Vendor? <==> crate.Sys?)
  {
    var state := VersionIn(r.work, crate);
    if state.dev || state != VersionIn(Head(r), crate) then r
    else
      var (target, r) := Target(r, crate, request, cycle);
      if target.None? then r
      else
        var next := target.value.(dev := cycle);
        var tag := TagOf(crate, next);
        if tag in r.work.docs || tag in r.tags then r
        else
          var work := SetVersion(r.work, crate, next);
          var repin := crate.Main? || work.main.dev;
          var work := if repin then work.(pin := Exact(work.sys)) else work;
          if !lockfile then r.(work := work)
          else
            var scaffolded := r.(work := work.(docs := work.docs[tag := STUB]));
            Add(scaffolded, ReleaseFiles(crate, tag) + if repin then [Manifest(Main)] else [])
  }

  // --- steps and runs ----------------------------------------------------------------

  datatype Step =
    | DoPrepare(crate: Crate, request: Request, cycle: bool, lockfile: bool)
    // edit, stage, unstage and restore files, but write no crate's version
    | DoEdit(index: Tree, work: Tree)
    // commit what is staged, through the gate
    | DoCommit
    // git restore --staged --worktree of the crate's version files
    | DoAbandon(crate: Crate)
    // revert the Prepare commit of an open cycle
    | DoRevert(crate: Crate, reverted: Tree)
    | DoPublish(crate: Crate, today: nat, fate: Fate)

  /** The crate's version in the index is what it was, or as in the worktree or at
      HEAD; or the worktree has the index's back. */
  predicate OnlyMoves(r: Repo, index: Tree, work: Tree, crate: Crate)
    requires WellFormed(r)
  {
    var i, w := VersionIn(r.index, crate), VersionIn(r.work, crate);
    || (VersionIn(work, crate) == w && VersionIn(index, crate) in {i, w, VersionIn(Head(r), crate)})
    || (VersionIn(index, crate) == i && VersionIn(work, crate) == i)
  }

  ghost predicate Enabled(r: Repo, step: Step)
    requires WellFormed(r)
  {
    match step
    case DoPrepare(crate, request, _, _) => request.Vendor? <==> crate.Sys?
    case DoEdit(index, work) => forall crate: Crate :: OnlyMoves(r, index, work, crate)
    case DoCommit => GatePasses(r, None)
    case DoAbandon(_) => true
    case DoRevert(crate, reverted) =>
      && CleanTree(r) && VersionIn(Head(r), crate).dev && crate in r.bases
      && VersionIn(reverted, crate) == VersionIn(r.bases[crate], crate)
      && reverted.pin in {Head(r).pin, r.bases[crate].pin}
      && forall other: Crate :: other != crate ==> VersionIn(reverted, other) == VersionIn(Head(r), other)
    case DoPublish(crate, _, _) => MayPublish(r, crate)
  }

  /** The crates whose cycle this commit opens, with the tree it changes. */
  function Opened(r: Repo): map<Crate, Tree>
    requires WellFormed(r)
  {
    map crate: Crate | crate in {Sys, Main} && VersionIn(r.index, crate).dev && !VersionIn(Head(r), crate).dev
      :: Head(r)
  }

  function Next(r: Repo, step: Step): Repo
    requires WellFormed(r)
    requires step.DoPrepare? ==> (step.request.Vendor? <==> step.crate.Sys?)
  {
    match step
    case DoPrepare(crate, request, cycle, lockfile) => Prepare(r, crate, request, cycle, lockfile)
    case DoEdit(index, work) => r.(index := index, work := work)
    case DoCommit => Commit(r).(bases := r.bases + Opened(r))
    case DoAbandon(crate) =>
      var files := VersionFiles(crate);
      r.(index := CopyFiles(Head(r), r.index, files), work := CopyFiles(Head(r), r.work, files))
    case DoRevert(crate, reverted) =>
      r.(commits := r.commits + [reverted], head := |r.commits|, index := reverted, work := reverted,
         bases := r.bases - {crate})
    case DoPublish(crate, today, fate) => Publish(r, crate, today, fate)
  }
}
