/**
 * The cache manager's loops over the file system, in place (cmd/llm-proxy/cache_manager.go): each method
 * changes the disk step by step and is shown to do what the function of the same name says.
 */
module Disks {
  import opened Prelude
  import opened Paths
  import opened FileSystem
  import Archive
  import Download
  import Repair
  import RoundTrip

  class Disk {
    var fs: Files

    constructor (fs: Files)
      ensures this.fs == fs
    {
      this.fs := fs;
    }

    /** The copy loop of archiveHot: stops at the first file that cannot be copied. */
    method CopyFiles(source: Path, destination: Path, blobs: Path, files: seq<Path>) returns (ok: bool)
      modifies this
      ensures Outcome(ok, fs) == Archive.CopyFiles(old(fs), source, destination, blobs, files)
    {
      assert files[0..] == files;
      for i := 0 to |files|
        invariant Archive.CopyFiles(old(fs), source, destination, blobs, files) ==
                  Archive.CopyFiles(fs, source, destination, blobs, files[i..])
      {
        assert files[i..][0] == files[i] && files[i..][1..] == files[i + 1..];
        var o := Archive.CopyHuggingFaceFile(fs, source + files[i], destination + files[i], blobs);
        fs := o.fs;
        if !o.ok {
          return false;
        }
      }
      ok := true;
    }

    /** The loop of materialize: stops at the first manifest entry that cannot be promoted. */
    method Materialize(artifact: Path, hot: Path, target: Path, items: seq<Item>) returns (ok: bool)
      modifies this
      ensures Outcome(ok, fs) == Archive.Materialize(old(fs), artifact, hot, target, items)
    {
      assert items[0..] == items;
      for i := 0 to |items|
        invariant Archive.Materialize(old(fs), artifact, hot, target, items) ==
                  Archive.Materialize(fs, artifact, hot, target, items[i..])
      {
        assert items[i..][0] == items[i] && items[i..][1..] == items[i + 1..];
        var o := Archive.MaterializeItem(fs, artifact, hot, target, items[i]);
        fs := o.fs;
        if !o.ok {
          return false;
        }
      }
      ok := true;
    }

    /** clearMaterialized, then materialize. */
    method Promote(artifact: Path, hot: Path, target: Path, items: seq<Item>) returns (ok: bool)
      modifies this
      ensures Outcome(ok, fs) == RoundTrip.Promote(old(fs), artifact, hot, target, items)
    {
      fs := RemoveAll(fs, hot + target);
      ok := Materialize(artifact, hot, target, items);
    }

    /** downloadToHot of a file artifact, on a cleared payload. */
    method DownloadFiles(hot: Path, spec: CacheSpec, temp: string, tool: Files -> Outcome) returns (ok: bool)
      modifies this
      ensures Outcome(ok, fs) == Download.DownloadFiles(old(fs), hot, spec, temp, tool)
    {
      var staging := hot + [temp];
      var made := MkdirAll(fs, hot);
      fs := made.fs;
      var s := Place(fs, staging);
      if !made.ok || s.None? || s.value in fs {
        return false;
      }
      var got := tool(fs[s.value := Folder]);
      fs, ok := got.fs, got.ok;
      if ok {
        ok := CopyFiles(Download.Snapshot(staging, spec), hot + spec.target, Archive.HotBlobs(hot), spec.files);
      }
      fs := RemoveAll(fs, staging);
    }

    /** The loop of repairHotMaterialization. */
    method RelinkFiles(hot: Path, root: Path, files: seq<Path>) returns (ok: bool)
      modifies this
      ensures Outcome(ok, fs) == Repair.RelinkFiles(old(fs), hot, root, files)
    {
      assert files[0..] == files;
      for i := 0 to |files|
        invariant Repair.RelinkFiles(old(fs), hot, root, files) == Repair.RelinkFiles(fs, hot, root, files[i..])
      {
        assert files[i..][0] == files[i] && files[i..][1..] == files[i + 1..];
        var o := Repair.RelinkFile(fs, hot, root + files[i]);
        fs := o.fs;
        if !o.ok {
          return false;
        }
      }
      ok := true;
    }

    /** hotArtifactExists for a file artifact: leaves at the first file that is not served. */
    method AllServed(hot: Path, root: Path, files: seq<Path>) returns (served: bool)
      ensures served <==> Repair.AllServed(fs, hot, root, files)
    {
      for i := 0 to |files|
        invariant forall j :: 0 <= j < i ==> Repair.FileServed(fs, hot, root + files[j])
      {
        if !Repair.FileServed(fs, hot, root + files[i]) {
          return false;
        }
      }
      served := true;
    }

    /** artifactInventory: one record for every regular file and link below a directory. */
    method ArtifactInventory(root: Path) returns (items: seq<Item>)
      ensures RoundTrip.Inventory(fs, root, items)
    {
      items := [];
      var rest := set p | p in fs && root <= p && !fs[p].Folder?;
      ghost var all := rest;
      while rest != {}
        invariant rest <= all && (forall p :: p in rest ==> p in fs && root <= p && !fs[p].Folder?)
        invariant forall i :: 0 <= i < |items| ==> Covers(root, all - rest, items[i])
        invariant forall p :: p in all - rest ==> RoundTrip.Listed(root, items, p)
        invariant forall i, j :: 0 <= i < j < |items| ==> items[i].path != items[j].path
        decreases rest
      {
        var p :| p in rest;
        var item := RecordFor(p[|root|..], fs[p]);
        assert root + item.path == p;
        assert forall i :: 0 <= i < |items| ==> root + items[i].path != p;
        var longer := items + [item];
        assert forall q :: RoundTrip.Listed(root, items, q) ==> RoundTrip.Listed(root, longer, q) by {
          forall q | RoundTrip.Listed(root, items, q) ensures RoundTrip.Listed(root, longer, q) {
            var i :| 0 <= i < |items| && root + items[i].path == q;
            assert longer[i] == items[i];
          }
        }
        assert root + longer[|items|].path == p;
        items, rest := longer, rest - {p};
      }
    }

    predicate Covers(root: Path, done: set<Path>, item: Item)
      reads this
    {
      root + item.path in done && root + item.path in fs && RoundTrip.Recorded(fs[root + item.path], item)
    }

    /** archiveHot of a file artifact; `items` is the inventory written to the manifest. */
    method ArchiveHot(spec: CacheSpec, hot: Path, destination: Path, temp: string)
      returns (ok: bool, ghost items: seq<Item>)
      requires destination != []
      modifies this
      ensures Outcome(ok, fs) == RoundTrip.ArchiveHot(old(fs), spec, hot, destination, temp, items)
      ensures Inventoried(old(fs), spec, hot, destination, temp, items)
    {
      items := [];
      var staging := Dir(destination) + [temp];
      var made := MkdirAll(fs, Dir(destination));
      fs := made.fs;
      var s := Place(fs, staging);
      if !made.ok || s.None? || s.value in fs {
        return false, items;
      }
      fs := fs[s.value := Folder];
      ok := CopyFiles(hot + spec.target, Archive.ColdRoot(staging), Archive.ColdBlobs(staging), spec.files);
      if ok {
        var inventory := ArtifactInventory(staging + [Archive.PAYLOAD]);
        items := inventory;
        var o := RoundTrip.Finish(fs, spec, staging, destination, inventory);
        fs, ok := o.fs, o.ok;
      }
      fs := RemoveAll(fs, staging);
    }
  }

  /** The inventory is the one of the staged payload, if staging gets that far. */
  predicate Inventoried(fs: Files, spec: CacheSpec, hot: Path, destination: Path, temp: string, items: seq<Item>)
    requires destination != []
  {
    var staging := Dir(destination) + [temp];
    var made := MkdirAll(fs, Dir(destination));
    var s := Place(made.fs, staging);
    made.ok && s.Some? && s.value !in made.fs ==>
      var copied := RoundTrip.CopyStaged(made.fs[s.value := Folder], spec, hot, staging);
      copied.ok ==> RoundTrip.Inventory(copied.fs, staging + [Archive.PAYLOAD], items)
  }

  function RecordFor(path: Path, n: Node): Item
    requires !n.Folder?
  {
    match n
    case File(d) => Item(path, None, Size(d), Some(Digest(d)))
    case Link(t) => Item(path, Some(t), 0, None)
  }
}
