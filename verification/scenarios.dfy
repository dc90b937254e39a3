/**
 Worked examples of the model on small inputs, stated as lemmas.
 */
module Scenarios {
  import opened Wrappers
  import opened Strings
  import opened PromptTable
  import opened Correlator
  import opened Discovery
  import Sequences

  const Prefixes: seq<string> := ["clip_", "scene_"]
  const Table: seq<Row> := [Row("abc123", Some("a cat"))]

  /** The first file matches `clip_` and its identifier has a row. */
  lemma ClipFile()
    ensures ProcessFile("clip_abc123.mp4", Prefixes, Table) == Some(Record("abc123", "clip_", Some("a cat")))
  {
    var f := "clip_abc123.mp4";
    var rec := Record("abc123", "clip_", Some("a cat"));
    assert StartsWith(f, Prefixes[0]);
    assert f[5..] == "abc123.mp4";
    assert IsUuidOf("abc123", "abc123.mp4");
    assert IsFirstRowFor(Table, "abc123", 0);
    assert Describes(rec, f, Prefixes, Table);
    DescribesDeterminesRecord(rec, f, Prefixes, Table);
  }

  /** The second file fails `clip_`, matches `scene_`, and has no row. */
  lemma SceneFile()
    ensures ProcessFile("scene_xyz999.mov", Prefixes, Table) == Some(Record("xyz999", "scene_", None))
  {
    var f := "scene_xyz999.mov";
    var rec := Record("xyz999", "scene_", None);
    assert !StartsWith(f, Prefixes[0]) by { assert f[..5][0] != Prefixes[0][0]; }
    assert StartsWith(f, Prefixes[1]);
    assert f[6..] == "xyz999.mov";
    assert IsUuidOf("xyz999", "xyz999.mov");
    assert !HasId(Table, "xyz999") by { assert Table[0].uuid != "xyz999"; }
    assert Describes(rec, f, Prefixes, Table);
    DescribesDeterminesRecord(rec, f, Prefixes, Table);
  }

  /** The third file matches neither prefix. */
  lemma RandomFile()
    ensures ProcessFile("random_file.mp4", Prefixes, Table) == None
  {
    var f := "random_file.mp4";
    assert !StartsWith(f, Prefixes[0]) by { assert f[..5][0] != Prefixes[0][0]; }
    assert !StartsWith(f, Prefixes[1]) by { assert f[..6][0] != Prefixes[1][0]; }
  }

  /** The first two files together. */
  lemma ClipThenScene()
    ensures ProcessVideoFiles(["clip_abc123.mp4"] + ["scene_xyz999.mov"], Prefixes, Table)
      == [Record("abc123", "clip_", Some("a cat")), Record("xyz999", "scene_", None)]
  {
    ClipFile();
    SceneFile();
    ProcessSingleFile("clip_abc123.mp4", Prefixes, Table);
    ProcessSingleFile("scene_xyz999.mov", Prefixes, Table);
    assert ProcessVideoFiles(["clip_abc123.mp4"], Prefixes, Table) == [Record("abc123", "clip_", Some("a cat"))];
    assert ProcessVideoFiles(["scene_xyz999.mov"], Prefixes, Table) == [Record("xyz999", "scene_", None)];
    ProcessVideoFilesAppend(["clip_abc123.mp4"], ["scene_xyz999.mov"], Prefixes, Table);
  }

  /** Prefixes `clip_` and `scene_`; only `abc123` has a prompt. The `clip_`
      file gets its prompt, the `scene_` file a record without one, and the
      file with an unknown prefix no record at all. */
  lemma ClipSceneScenario()
    ensures ProcessVideoFiles(["clip_abc123.mp4"] + ["scene_xyz999.mov"] + ["random_file.mp4"], Prefixes, Table)
      == [Record("abc123", "clip_", Some("a cat")), Record("xyz999", "scene_", None)]
  {
    var front := ["clip_abc123.mp4"] + ["scene_xyz999.mov"];
    ClipThenScene();
    RandomFile();
    ProcessSingleFile("random_file.mp4", Prefixes, Table);
    ProcessVideoFilesAppend(front, ["random_file.mp4"], Prefixes, Table);
  }

  /** Names whose video status is settled by their last four characters. */
  lemma VideoNames()
    ensures IsVideoFile("a.mp4") && IsVideoFile("c.mkv") && IsVideoFile("e.avi")
    ensures !IsVideoFile("b.MP4") && !IsVideoFile("d.mp4.txt")
  {
    IsVideoFileBySuffix("a.mp4");
    IsVideoFileBySuffix("b.MP4");
    IsVideoFileBySuffix("c.mkv");
    IsVideoFileBySuffix("d.mp4.txt");
    IsVideoFileBySuffix("e.avi");
    assert "b.MP4"[1..] == ".MP4";
    assert "d.mp4.txt"[5..] == ".txt";
  }

  /** The first three names of the listing. */
  lemma ListingFront()
    ensures Sequences.Filter(["a.mp4"] + ["b.MP4"] + ["c.mkv"], IsVideoFile) == ["a.mp4", "c.mkv"]
  {
    VideoNames();
    Sequences.FilterStep([], "a.mp4", IsVideoFile);
    assert [] + ["a.mp4"] == ["a.mp4"];
    Sequences.FilterStep(["a.mp4"], "b.MP4", IsVideoFile);
    Sequences.FilterStep(["a.mp4"] + ["b.MP4"], "c.mkv", IsVideoFile);
  }

  /** The first four names of the listing: the double extension is dropped. */
  lemma ListingFour()
    ensures Sequences.Filter(["a.mp4"] + ["b.MP4"] + ["c.mkv"] + ["d.mp4.txt"], IsVideoFile)
      == ["a.mp4", "c.mkv"]
  {
    var front := ["a.mp4"] + ["b.MP4"] + ["c.mkv"];
    VideoNames();
    ListingFront();
    Sequences.FilterStep(front, "d.mp4.txt", IsVideoFile);
  }

  /** The extension test is case-sensitive and looks at the end of the name
      only; a missing folder lists nothing. */
  lemma ListingScenario()
    ensures ListVideoFiles(true, ["a.mp4"] + ["b.MP4"] + ["c.mkv"] + ["d.mp4.txt"] + ["e.avi"])
      == ["a.mp4", "c.mkv", "e.avi"]
    ensures ListVideoFiles(false, ["a.mp4"]) == []
  {
    var front := ["a.mp4"] + ["b.MP4"] + ["c.mkv"] + ["d.mp4.txt"];
    assert IsVideoFile("e.avi") by { VideoNames(); }
    ListingFour();
    Sequences.FilterStep(front, "e.avi", IsVideoFile);
    assert Sequences.Filter(front + ["e.avi"], IsVideoFile) == ["a.mp4", "c.mkv"] + ["e.avi"];
  }
}
