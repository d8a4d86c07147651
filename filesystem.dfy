/** The part of a file system the pipeline touches: directories that exist and
    the text content of files, keyed by path. */
module FileSystem {

  /** Path joining as `os.path.join` and `Path(dir) / name` join, without normalisation. */
  function Join(dir: string, name: string): (path: string)
    ensures |path| == |dir| + 1 + |name|
    ensures path[..|dir|] == dir && path[|dir|] == '/' && path[|dir| + 1..] == name
  {
    dir + "/" + name
  }

  class FileStore {
    var dirs: set<string>
    var files: map<string, string>

    constructor (dirs0: set<string>, files0: map<string, string>)
      ensures dirs == dirs0 && files == files0
    {
      dirs := dirs0;
      files := files0;
    }

    /** `mkdir(exist_ok=True)`: creating a directory that exists is not an error. */
    method MakeDir(dir: string)
      modifies this
      ensures dirs == old(dirs) + {dir} && files == old(files)
    {
      dirs := dirs + {dir};
    }

    /** `open(path, "w").write(content)`: creates or truncates, then writes. */
    method Write(path: string, content: string)
      modifies this
      ensures files == old(files)[path := content] && dirs == old(dirs)
    {
      files := files[path := content];
    }
  }
}
