/** The environment the scripts run in: the site's files, the verdict words
    they write into their reports, and the failure of a whole run. */
module Site {
  import opened Text

  datatype Option<+T> = None | Some(value: T)

  /** What a script's function produces: a value, or a Python exception that
      nothing in the script catches (the process then exits with status 1). */
  datatype Outcome<+T> = Returned(value: T) | Raised

  /** The status words the scripts store in their result dictionaries. */
  datatype Status = Pass | Warn | Fail | Error | Info | Partial

  /** The names of a directory's entries, in the order the directory yields
      them to `iterdir`, `glob` and `listdir`. */
  type Listing = string -> seq<string>

  /** The site directory, relative to the current directory the scripts run in.
      `files` and `dirs` are the existing paths; `text` holds the contents of
      the files that can be opened and decoded as UTF-8 (reading any other path
      raises); `binary` are the files that open but whose bytes are not UTF-8,
      so that reading them raises `UnicodeDecodeError` rather than an `OSError`;
      `sizes` holds what `stat` reports for each file. */
  datatype FileSystem = FileSystem(
    files: set<string>,
    dirs: set<string>,
    text: map<string, string>,
    binary: set<string>,
    sizes: map<string, nat>)
  {
    /** `os.path.exists(p)` and `Path(p).exists()`. */
    predicate Exists(p: string) {
      p in files || p in dirs
    }

    /** `Path(p).is_file()`. */
    predicate IsFile(p: string) {
      p in files
    }

    /** `open(p, encoding='utf-8').read()`, or None when it raises. */
    function Read(p: string): (r: Option<string>)
      ensures r.Some? <==> p in text
    {
      if p in text then Some(text[p]) else None
    }

    /** `any(Path(d).iterdir())`: the directory has at least one entry. */
    predicate HasEntries(d: string) {
      exists p :: p in files + dirs && StartsWith(p, d + "/")
    }
  }
}
