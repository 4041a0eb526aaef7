/** The slice of the file system the pipeline touches: files keyed by
    directory and name, the directories that exist, and the trace of
    completed File.Move calls. */
module Files {
  import opened Common

  /** A full path, split into its directory and its file name. */
  datatype Path = Path(dir: string, name: string)

  type Content = string

  /** One completed File.Move. */
  datatype FileMove = FileMove(src: Path, dest: Path)

  /** The file map after moving src to dest; unchanged when src is absent. */
  function Moved(files: map<Path, Content>, src: Path, dest: Path): (r: map<Path, Content>)
    ensures src in files ==> dest in r && r[dest] == files[src]
    ensures src in files && src != dest ==> src !in r
    ensures forall p :: p != src && p != dest ==> (p in r <==> p in files) && (p in r ==> r[p] == files[p])
  {
    if src in files then (files - {src})[dest := files[src]] else files
  }

  /** File.Move succeeds only when the source exists, nothing is at the
      destination yet and the destination's directory exists. */
  predicate CanMove(files: map<Path, Content>, dirs: set<string>, src: Path, dest: Path) {
    src in files && dest !in files && dest.dir in dirs
  }

  class FileSystem {
    var files: map<Path, Content>
    var dirs: set<string>
    /** Every File.Move that completed, oldest first. */
    var moves: seq<FileMove>

    constructor (files: map<Path, Content>, dirs: set<string>)
      ensures this.files == files && this.dirs == dirs && moves == []
    {
      this.files := files;
      this.dirs := dirs;
      moves := [];
    }

    /** Directory.CreateDirectory: a no-op when the directory exists. */
    method CreateDirectory(dir: string)
      modifies this
      ensures dirs == old(dirs) + {dir}
      ensures files == old(files) && moves == old(moves)
    {
      dirs := dirs + {dir};
    }

    /** Writes (or overwrites) one file. */
    method WriteFile(p: Path, content: Content)
      modifies this
      ensures files == old(files)[p := content]
      ensures dirs == old(dirs) && moves == old(moves)
    {
      files := files[p := content];
    }

    /** Writes a batch of files, as a process writing its output would. */
    method WriteFiles(written: map<Path, Content>)
      modifies this
      ensures files == old(files) + written
      ensures dirs == old(dirs) && moves == old(moves)
    {
      files := files + written;
    }

    /** DirectoryInfo.EnumerateFiles: every file of dir exactly once, in an
        order the file system chooses. */
    method EnumerateFiles(dir: string) returns (list: seq<Path>)
      ensures NoDuplicates(list)
      ensures forall p :: p in list <==> p in files && p.dir == dir
    {
      var remaining := set p | p in files && p.dir == dir;
      list := [];
      while remaining != {}
        invariant NoDuplicates(list)
        invariant forall p :: p in list ==> p in files && p.dir == dir && p !in remaining
        invariant forall p :: p in remaining ==> p in files && p.dir == dir
        invariant forall p :: p in files && p.dir == dir ==> p in list || p in remaining
        decreases remaining
      {
        var p :| p in remaining;
        list := list + [p];
        remaining := remaining - {p};
      }
    }

    /** File.Move: on success the file changes path and the move is recorded;
        on failure (the call throws) nothing changes. */
    method Move(src: Path, dest: Path) returns (ok: bool)
      modifies this
      ensures ok <==> CanMove(old(files), old(dirs), src, dest)
      ensures files == if ok then Moved(old(files), src, dest) else old(files)
      ensures moves == if ok then old(moves) + [FileMove(src, dest)] else old(moves)
      ensures dirs == old(dirs)
    {
      ok := CanMove(files, dirs, src, dest);
      if ok {
        files := Moved(files, src, dest);
        moves := moves + [FileMove(src, dest)];
      }
    }
  }
}
