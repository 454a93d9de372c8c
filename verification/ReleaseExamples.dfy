/** A run in which a failed signature costs a release file. */
module ReleaseExamples {
  import opened Wrappers
  import opened Release
  import opened ReleaseHistory
  import opened ReleaseRollback

  const V1 := Version(1, 0, 0, false)
  const NEXT := Tag(Main, Version(1, 1, 0, false))
  const FIRST := Tree(V1, V1, Exact(V1), V1, 0, map[], 0)
  const START := Repo([FIRST], 0, map[], FIRST, FIRST, map[])

  /** Prepare a cycle, take its release file out of the index and finish it,
      commit the rest, and publish with a key that does not sign. */
  function Slip(): seq<Step> {
    var bumped := FIRST.(main := Version(1, 1, 0, true));
    [ DoPrepare(Main, BumpBy(Minor), true, true),
      DoEdit(bumped, bumped.(docs := map[NEXT := Doc(7, false, true, 0)])),
      DoCommit,
      DoPublish(Main, 1, SignFails) ]
  }

  function Prefix(n: nat): Repo
    requires n <= 3
  {
    var bumped := FIRST.(main := Version(1, 1, 0, true));
    var finished := bumped.(docs := map[NEXT := Doc(7, false, true, 0)]);
    if n == 0 then START
    else if n == 1 then START.(index := bumped.(docs := map[NEXT := STUB]), work := bumped.(docs := map[NEXT := STUB]))
    else if n == 2 then START.(index := bumped, work := finished)
    else Repo([FIRST, bumped], 1, map[], bumped, finished, map[Main := FIRST])
  }

  lemma Step1()
    ensures AtRest(START) && Enabled(START, Slip()[0]) && Next(START, Slip()[0]) == Prefix(1)
  {
    var files := ReleaseFiles(Main, NEXT) + [Manifest(Main)];
    assert files == [Manifest(Main), ReleaseFile(NEXT), Manifest(Main)];
    var bumped := FIRST.(main := Version(1, 1, 0, true)).(docs := map[NEXT := STUB]);
    assert CopyFiles(bumped, bumped, files[2..]) == bumped;
    assert CopyFiles(bumped, CopyFile(bumped, FIRST, Manifest(Main)), files[1..]) == bumped;
  }

  lemma Step3()
    ensures Enabled(Prefix(2), DoCommit) && Next(Prefix(2), DoCommit) == Prefix(3)
  {
    assert forall tag: Tag :: !InCommit(Prefix(2), ReleaseFile(tag));
    assert Opened(Prefix(2)) == map[Main := FIRST];
  }

  lemma Step4()
    ensures Enabled(Prefix(3), Slip()[3])
    ensures NEXT !in Next(Prefix(3), Slip()[3]).work.docs
  {
    assert forall f: File :: !Dirty(Prefix(3), f);
    CycleRollback(Prefix(3), Main, 1, SignFails);
  }

  /** The release file that publish was about to release is gone. */
  lemma UncommittedReleaseFileIsLost()
    ensures AtRest(START)
    ensures Runs(START, Slip()[..3], Prefix(3)) && MayPublish(Prefix(3), Main)
    ensures NEXT in Prefix(3).work.docs && NEXT !in Publish(Prefix(3), Main, 1, SignFails).work.docs
  {
    Step1();
    Step3();
    Step4();
    var s := Slip()[..3];
    assert Runs(Prefix(3), s[1..][1..][1..], Prefix(3));
    assert Runs(Prefix(2), s[1..][1..], Prefix(3));
    assert Runs(Prefix(1), s[1..], Prefix(3));
  }
}
