/** The working directory as a mutable map from file name to text. */
module Files {
  import opened Wrappers

  class FileSystem {
    var files: map<string, string>

    constructor(initial: map<string, string>)
      ensures files == initial
    {
      files := initial;
    }

    /** open(path).read(): None when the file does not exist. */
    method Read(path: string) returns (text: Option<string>)
      ensures text == if path in files then Some(files[path]) else None
    {
      text := if path in files then Some(files[path]) else None;
    }

    /** open(path, "w").write(text): creates or replaces the file. */
    method Write(path: string, text: string)
      modifies this
      ensures files == old(files)[path := text]
    {
      files := files[path := text];
    }

    method Exists(path: string) returns (present: bool)
      ensures present <==> path in files
    {
      present := path in files;
    }

    method Remove(path: string)
      requires path in files
      modifies this
      ensures files == old(files) - {path}
    {
      files := files - {path};
    }
  }
}
