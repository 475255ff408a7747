/** Worked examples of the pipeline on small directories. */
module Scenarios {
  import opened Wrappers
  import opened StorageFlag
  import opened Snapshot
  import opened Resolution
  import opened Pipeline

  /** Absolute tokens stay as they are; relative ones are taken from the working directory. */
  const Ops := PathOps("/work", t => if "/" <= t then t else "/work/" + t, n => "/work/" + n)

  function Happy(before: seq<string>, after: seq<string>): World {
    World(true, false, Identity, before, 0, after, Ops, p => true, p => p != "/work/b.txt", Identity)
  }

  const Defaults := Known("root", None)

  /** Empty directory, the download creates `llama-7b/`: that folder is uploaded. */
  lemma SingleNewFolderIsUploaded()
    ensures Main(Happy([], ["llama-7b", ".cache"]), Defaults, ["--model", "x"]).outcome
            == UploadFolder("/work/llama-7b", "root", None)
  {
    var args: seq<string> := ["--model", "x"];
    assert FirstIndex(args, ShortFlag) == None by {
      assert ShortFlag !in args;
    }
    assert FirstIndex(args, LongFlag) == None by {
      assert LongFlag !in args;
    }
    var after: seq<string> := ["llama-7b", ".cache"];
    assert IsHidden(".cache");
    assert Unseen({}, after) == ["llama-7b"];
    assert DetectNewItems({}, after) == ["llama-7b"];
    assert ExplicitStoragePath(args, Ops.normalize) == None;
    assert ResolveTarget(args, {}, after, Ops) == "/work/llama-7b";
  }

  /** `-s /tmp/out` wins over an unrelated new file, even outside the directory, and that folder is uploaded. */
  lemma ExplicitPathBeatsNewFile()
    ensures Target(Happy(["a"], ["a", "cache.tmp"]), ["-s", "/tmp/out"]) == "/tmp/out"
    ensures Main(Happy(["a"], ["a", "cache.tmp"]), Defaults, ["-s", "/tmp/out"]).outcome
            == UploadFolder("/tmp/out", "root", None)
  {
    var args: seq<string> := ["-s", "/tmp/out"];
    assert FirstIndex(args, ShortFlag) == Some(0);
  }

  /** Two new entries: the whole working directory is uploaded. */
  lemma TwoNewEntriesUploadWorkingDir()
    ensures Main(Happy([], ["a", "b.txt"]), Defaults, []).outcome == UploadFolder("/work", "root", None)
  {
    assert NewEntries({}, ["a", "b.txt"]) == {"a", "b.txt"};
  }

  /** A Null identity at the early login: exit 1, the downloader never runs. */
  lemma NullIdentityExitsBeforeDownload()
    ensures Main(Happy([], ["m"]).(earlyLogin := NullIdentity), Defaults, []) == Run([Login], Exit(1))
  {
  }
}
