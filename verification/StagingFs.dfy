/** The directory that holds an extraction target: named trees, changed one system call at a time. */
module StagingFs {
  import opened Common
  import opened Format

  /**
   One place of a directory.  Names that the platform does not tell apart have the same text;
   a private temporary name, which ends in random digits, is a place of its own.
   */
  datatype Slot = Named(text: seq<int>) | Private(id: u64)

  type Path = seq<Slot>

  datatype FsNode = DirNode(name: string) | FileNode(name: string, content: Bytes)

  /** A directory tree by relative path; `[]` is its top. */
  type FsTree = map<Path, FsNode>

  const EMPTY_TREE: FsTree := map[[] := DirNode("")]

  function RenamedNode(tree: FsTree, from: Path, to: Path, name: string): FsTree
    requires from in tree && tree[from].FileNode?
  {
    (tree - {from})[to := FileNode(name, tree[from].content)]
  }

  /**
   What goes wrong without a reason: nothing; nothing until a new private directory is opened, as when the process has no
   handles left; anything at any time, cancellations included.
   */
  datatype Environment = Quiet | NoHandles | Rough

  class ParentDir {
    var names: map<string, FsTree>
    const environment: Environment
    /** No system call fails without a reason and nobody cancels. */
    const quiet: bool := environment.Quiet?
    /** A name under observation, and after how many steps it existed. */
    const watched: string
    ghost var sightings: nat

    constructor (names: map<string, FsTree>, environment: Environment, watched: string)
      ensures this.names == names && this.environment == environment && this.watched == watched && sightings == 0
    {
      this.names, this.environment, this.watched, sightings := names, environment, watched, 0;
    }

    method Become(now: map<string, FsTree>)
      modifies this
      ensures names == now && sightings == old(sightings) + if watched in now then 1 else 0
    {
      names := now;
      sightings := sightings + if watched in now then 1 else 0;
    }

    /** `create_dir` directly in this directory. */
    method CreateTop(name: string) returns (ok: bool)
      modifies this
      ensures ok ==> name !in old(names) && names == old(names)[name := EMPTY_TREE]
      ensures ok ==> sightings == old(sightings) + if watched in names then 1 else 0
      ensures !ok ==> names == old(names) && sightings == old(sightings)
      ensures !environment.Rough? && name !in old(names) ==> ok
    {
      var fail := Disturbed(!environment.Rough?);
      if fail || name in names {
        return false;
      }
      Become(names[name := EMPTY_TREE]);
      ok := true;
    }

    /** `open_dir` of a directory that was just created. */
    method OpenTop(name: string) returns (ok: bool)
      requires name in names
      ensures quiet ==> ok
      ensures environment.NoHandles? ==> !ok
    {
      var fail := Disturbed(quiet);
      ok := !fail && !environment.NoHandles?;
    }

    /** Creation of a directory or an empty file inside a tree; something already there or a refused name is an error. */
    method CreateInside(top: string, path: Path, node: FsNode, accepted: bool) returns (ok: bool)
      requires top in names
      modifies this
      ensures ok ==> accepted && path !in old(names)[top] && names == old(names)[top := old(names)[top][path := node]]
      ensures ok ==> sightings == old(sightings) + if watched in names then 1 else 0
      ensures !ok ==> names == old(names) && sightings == old(sightings)
      ensures quiet && accepted && path !in old(names)[top] ==> ok
    {
      var fail := Disturbed(quiet);
      if fail || !accepted || path in names[top] {
        return false;
      }
      Become(names[top := names[top][path := node]]);
      ok := true;
    }

    /** `write_all` at the end of a file; a failure may leave a part of the data. */
    method Append(top: string, path: Path, data: Bytes) returns (ok: bool)
      requires top in names && path in names[top] && names[top][path].FileNode?
      modifies this
      ensures var f := old(names)[top][path];
        exists n {:trigger data[..n]} :: 0 <= n <= |data| && (ok ==> n == |data|)
          && names == old(names)[top := old(names)[top][path := f.(content := f.content + data[..n])]]
      ensures sightings == old(sightings) + if watched in names then 1 else 0
      ensures quiet ==> ok
    {
      var f := names[top][path];
      var fail := Disturbed(quiet);
      var n: int := *;
      if fail && 0 <= n <= |data| {
        Become(names[top := names[top][path := f.(content := f.content + data[..n])]]);
        return false;
      }
      Become(names[top := names[top][path := f.(content := f.content + data[..|data|])]]);
      ok := true;
    }

    /** `rename` of a file: a file already there is replaced, a directory or a refused name is an error. */
    method RenameFile(top: string, from: Path, to: Path, name: string, accepted: bool) returns (ok: bool)
      requires top in names && from in names[top] && names[top][from].FileNode?
      modifies this
      ensures ok ==> accepted && (to in old(names)[top] ==> old(names)[top][to].FileNode?)
      ensures ok ==> names == old(names)[top := RenamedNode(old(names)[top], from, to, name)]
      ensures ok ==> sightings == old(sightings) + if watched in names then 1 else 0
      ensures !ok ==> names == old(names) && sightings == old(sightings)
      ensures quiet && accepted && to !in old(names)[top] ==> ok
    {
      var fail := Disturbed(quiet);
      if fail || !accepted || (to in names[top] && names[top][to].DirNode?) {
        return false;
      }
      Become(names[top := RenamedNode(names[top], from, to, name)]);
      ok := true;
    }

    /** Removal of a file or a whole tree below `top`; best effort. */
    method RemoveInside(top: string, path: Path)
      requires top in names
      modifies this
      ensures top in names && names == old(names)[top := names[top]]
      ensures sightings == old(sightings) + if watched in names then 1 else 0
    {
      var tree := names[top];
      var fail := Disturbed(quiet);
      Become(names[top := if fail then tree else tree - {path}]);
    }

    /** The atomic rename that refuses to replace anything. */
    method InstallTop(from: string, to: string) returns (ok: bool)
      requires from in names
      modifies this
      ensures ok ==> to !in old(names) && names == (old(names) - {from})[to := old(names)[from]]
      ensures ok ==> sightings == old(sightings) + if watched in names then 1 else 0
      ensures !ok ==> names == old(names) && sightings == old(sightings)
      ensures quiet && to !in old(names) ==> ok
    {
      var fail := Disturbed(quiet);
      if fail || to in names {
        return false;
      }
      Become((names - {from})[to := names[from]]);
      ok := true;
    }

    /** `remove_dir_all`; a failure leaves some of the tree. */
    method RemoveTop(name: string) returns (ok: bool)
      modifies this
      ensures ok ==> names == old(names) - {name}
      ensures !ok ==> name in old(names) && name in names && names == old(names)[name := names[name]]
      ensures sightings == old(sightings) + if watched in names then 1 else 0
      ensures quiet ==> ok
    {
      var fail := Disturbed(quiet);
      if fail && name in names {
        Become(names[name := EMPTY_TREE]);
        return false;
      }
      Become(names - {name});
      ok := true;
    }
  }
}
