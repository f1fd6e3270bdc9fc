/** `SafeRoot` and `PendingFile`: a private tree that is published by one rename or removed. */
module SafeFs {
  import opened Common
  import opened Format
  import opened StagingFs

  /**
   How the platform reads a name: its place in a directory, whether extraction accepts it, and whether the system then
   creates a directory, or moves a file, under it.
   */
  datatype Platform = Platform(
    text: string -> seq<int>, legal: string -> bool, dirName: string -> bool, fileName: string -> bool)

  /** Only the tree called `top` differs. */
  ghost predicate OnlyInside(before: map<string, FsTree>, after: map<string, FsTree>, top: string) {
    top in after && after == before[top := after[top]]
  }

  lemma OnlyInsideTwice(a: map<string, FsTree>, b: map<string, FsTree>, c: map<string, FsTree>, top: string)
    requires OnlyInside(a, b, top) && OnlyInside(b, c, top)
    ensures OnlyInside(a, c, top)
  {
  }

  class PendingFile {
    const parent: ParentDir
    const top: string
    const dir: Path
    const id: u64
    const finalName: string
    var writing: bool
    var committed: bool

    ghost function TempPath(): Path {
      dir + [Private(id)]
    }

    constructor (parent: ParentDir, top: string, dir: Path, id: u64, finalName: string)
      ensures this.parent == parent && this.top == top && this.dir == dir && this.id == id && this.finalName == finalName
      ensures writing && !committed
    {
      this.parent, this.top, this.dir, this.id, this.finalName := parent, top, dir, id, finalName;
      writing, committed := true, false;
    }

    ghost predicate OnDisk()
      reads this, parent
    {
      top in parent.names && TempPath() in parent.names[top] && parent.names[top][TempPath()].FileNode?
    }

    /** Writes to the temporary file while it is open. */
    method Write(data: Bytes) returns (r: Result<()>)
      requires OnDisk() && parent.watched !in parent.names
      modifies parent
      ensures r.Ok? ==> writing && (var f := old(parent.names)[top][TempPath()];
        parent.names == old(parent.names)[top := old(parent.names)[top][TempPath() := f.(content := f.content + data)]])
      ensures OnlyInside(old(parent.names), parent.names, top) && parent.sightings == old(parent.sightings)
      ensures parent.quiet && writing ==> r.Ok?
    {
      if !writing {
        return Err(Io);
      }
      var ok := parent.Append(top, dir + [Private(id)], data);
      assert data[..|data|] == data;
      r := if ok then Ok(()) else Err(Io);
    }

    /** Flush, sync and close. */
    method FinishWriting() returns (r: Result<()>)
      modifies this`writing
      ensures r.Ok? ==> !writing
      ensures r.Err? ==> r == Err(Io)
      ensures parent.quiet ==> r.Ok?
    {
      writing := false;
      var fail := Disturbed(parent.quiet);
      r := if fail then Err(Io) else Ok(());
    }

    /** Gives the file its final name inside the private tree. */
    method Commit(platform: Platform) returns (r: Result<()>)
      requires OnDisk() && parent.watched !in parent.names
      modifies this, parent
      ensures OnlyInside(old(parent.names), parent.names, top) && parent.sightings == old(parent.sightings)
      ensures r.Err? ==> r == Err(Io)
      ensures var to := dir + [Named(platform.text(finalName))]; var tree := old(parent.names)[top];
        && (r.Ok? ==> committed && platform.fileName(finalName) && (to in tree ==> tree[to].FileNode?)
                      && parent.names == old(parent.names)[top := RenamedNode(tree, TempPath(), to, finalName)])
        && (parent.quiet && platform.fileName(finalName) && to !in tree ==> r.Ok?)
    {
      var finished := FinishWriting();
      if finished.Err? {
        return finished;
      }
      var to := dir + [Named(platform.text(finalName))];
      var ok := parent.RenameFile(top, dir + [Private(id)], to, finalName, platform.fileName(finalName));
      committed := ok;
      r := if ok then Ok(()) else Err(Io);
    }

    /** Dropping an uncommitted file removes it from the private tree. */
    method Drop()
      requires top in parent.names && parent.watched !in parent.names
      modifies this, parent
      ensures OnlyInside(old(parent.names), parent.names, top) && parent.sightings == old(parent.sightings)
      ensures committed == old(committed)
    {
      if !committed {
        writing := false;
        parent.RemoveInside(top, dir + [Private(id)]);
      }
    }
  }

  class SafeRoot {
    const parent: ParentDir
    const staging: string
    const target: string
    var directories: map<u64, Path>
    var committed: bool

    constructor (parent: ParentDir, staging: string, target: string)
      ensures this.parent == parent && this.staging == staging && this.target == target
      ensures directories == map[1 := []] && !committed
    {
      this.parent, this.staging, this.target, directories, committed := parent, staging, target, map[1 := []], false;
    }

    /** Every open directory exists in the private tree, and the destination does not exist. */
    ghost predicate Valid()
      reads this, parent
    {
      && !committed && staging in parent.names && target !in parent.names && parent.watched == target
    }

    /**
     `open_new_at`; the private name is either requested or allocated at random.  `made` tells that the private directory
     was created: if opening it then fails, it stays, because there is no root yet whose drop would remove it.
     */
    static method OpenNewAt(parent: ParentDir, target: string, staging: string)
      returns (r: Result<SafeRoot>, ghost made: bool)
      requires parent.watched == target
      modifies parent
      ensures r.Ok? ==> fresh(r.value) && r.value.parent == parent && r.value.staging == staging && r.value.target == target
      ensures r.Ok? ==> made && r.value.Valid() && r.value.directories == map[1 := []]
      ensures made ==> staging !in old(parent.names) && staging != target && target !in old(parent.names)
      ensures parent.names == if made then old(parent.names)[staging := EMPTY_TREE] else old(parent.names)
      ensures parent.sightings == old(parent.sightings)
      ensures target in old(parent.names) ==> r == Err(DestinationExists)
      ensures r.Err? ==> r.error == Io || (r.error == DestinationExists && !made)
      ensures target !in old(parent.names) && staging !in old(parent.names) && staging != target ==>
        && (parent.quiet ==> r.Ok?)
        && (parent.environment.NoHandles? ==> r == Err(Io) && made)
    {
      made := false;
      if target in parent.names {
        return Err(DestinationExists), made;
      }
      if staging == target || staging in parent.names {
        return Err(Io), made;
      }
      var ok := parent.CreateTop(staging);
      if !ok {
        return Err(Io), made;
      }
      made := true;
      ok := parent.OpenTop(staging);
      if !ok {
        return Err(Io), made;
      }
      var root := new SafeRoot(parent, staging, target);
      r := Ok(root);
    }

    method InstallRootId(id: u64) returns (r: Result<()>)
      requires Valid()
      modifies this
      ensures 1 in old(directories) ==> r.Ok? && directories == old(directories)[id := old(directories)[1]]
      ensures Valid()
    {
      if 1 !in directories {
        return Err(Io);
      }
      directories := directories[id := directories[1]];
      r := Ok(());
    }

    method CreateDirectory(id: u64, parentId: u64, name: string, platform: Platform) returns (r: Result<()>)
      requires Valid()
      modifies this`directories, parent
      ensures Valid() && OnlyInside(old(parent.names), parent.names, staging) && parent.sightings == old(parent.sightings)
      ensures r == Err(ParentMissing) ==> parentId !in old(directories)
      ensures r != Err(DuplicateEntry)
      ensures r.Ok? ==> platform.legal(name) && platform.dirName(name)
      ensures r.Ok? ==> parentId in old(directories) && (var path := old(directories)[parentId] + [Named(platform.text(name))];
        && path !in old(parent.names)[staging]
        && parent.names[staging] == old(parent.names)[staging][path := DirNode(name)]
        && directories == old(directories)[id := path])
      ensures (&& parent.quiet && platform.legal(name) && platform.dirName(name) && parentId in old(directories)
               && old(directories)[parentId] + [Named(platform.text(name))] !in old(parent.names)[staging]) ==> r.Ok?
    {
      if !platform.legal(name) {
        return Err(InvalidName);
      }
      if parentId !in directories {
        return Err(ParentMissing);
      }
      var path := directories[parentId] + [Named(platform.text(name))];
      var ok := parent.CreateInside(staging, path, DirNode(name), platform.dirName(name));
      if !ok {
        return Err(Io);
      }
      var unsafe := Disturbed(parent.quiet);
      if unsafe {
        return Err(Io);
      }
      directories := directories[id := path];
      r := Ok(());
    }

    method BeginFile(parentId: u64, finalName: string, entryId: u64, platform: Platform)
      returns (r: Result<PendingFile>)
      requires Valid()
      modifies parent
      ensures Valid() && OnlyInside(old(parent.names), parent.names, staging) && parent.sightings == old(parent.sightings)
      ensures r == Err(ParentMissing) ==> parentId !in directories
      ensures r == Err(DuplicateEntry) ==>
                parentId in directories && directories[parentId] + [Named(platform.text(finalName))] in old(parent.names)[staging]
      ensures (&& platform.legal(finalName) && parentId in directories
               && directories[parentId] + [Named(platform.text(finalName))] in old(parent.names)[staging]) ==>
                r == Err(DuplicateEntry)
      ensures r.Err? ==> r.error == InvalidName || r.error == ParentMissing || r.error == DuplicateEntry || r.error == Io
      ensures r.Ok? ==> platform.legal(finalName)
      ensures r.Ok? ==> parentId in directories && (var dir := directories[parentId];
        && dir + [Named(platform.text(finalName))] !in old(parent.names)[staging]
        && dir + [Private(entryId)] !in old(parent.names)[staging]
        && parent.names[staging] == old(parent.names)[staging][dir + [Private(entryId)] := FileNode("", [])]
        && fresh(r.value) && r.value.parent == parent && r.value.top == staging && r.value.dir == dir
        && r.value.id == entryId && r.value.finalName == finalName && r.value.writing && !r.value.committed)
      ensures (&& parent.quiet && platform.legal(finalName) && parentId in directories
               && directories[parentId] + [Named(platform.text(finalName))] !in old(parent.names)[staging]
               && directories[parentId] + [Private(entryId)] !in old(parent.names)[staging]) ==> r.Ok?
    {
      if !platform.legal(finalName) {
        return Err(InvalidName);
      }
      if parentId !in directories {
        return Err(ParentMissing);
      }
      var dir := directories[parentId];
      if dir + [Named(platform.text(finalName))] in parent.names[staging] {
        return Err(DuplicateEntry);
      }
      var ok := parent.CreateInside(staging, dir + [Private(entryId)], FileNode("", []), true);
      if !ok {
        return Err(Io);
      }
      var fail := Disturbed(parent.quiet);
      if fail {
        return Err(Io);
      }
      var file := new PendingFile(parent, staging, dir, entryId, finalName);
      r := Ok(file);
    }

    /** Publishes the tree by one rename, or leaves the destination absent. */
    method Commit() returns (r: Result<()>)
      requires Valid()
      modifies this, parent
      ensures r.Ok? ==> committed && parent.names == (old(parent.names) - {staging})[target := old(parent.names)[staging]]
      ensures r.Ok? ==> parent.sightings == old(parent.sightings) + 1
      ensures r.Err? ==> r == Err(Io) && Valid() && parent.names == old(parent.names) && parent.sightings == old(parent.sightings)
      ensures parent.quiet ==> r.Ok?
    {
      var fail := Disturbed(parent.quiet);
      if fail {
        return Err(Io);
      }
      directories := map[];
      var ok := parent.InstallTop(staging, target);
      if !ok {
        return Err(Io);
      }
      committed := true;
      r := Ok(());
    }

    /** Dropping an uncommitted root removes the private tree. */
    method Drop() returns (cleaned: bool)
      requires Valid()
      modifies this, parent
      ensures cleaned ==> parent.names == old(parent.names) - {staging}
      ensures !cleaned ==> OnlyInside(old(parent.names), parent.names, staging)
      ensures parent.sightings == old(parent.sightings)
      ensures parent.quiet ==> cleaned
    {
      directories := map[];
      cleaned := parent.RemoveTop(staging);
    }
  }
}
