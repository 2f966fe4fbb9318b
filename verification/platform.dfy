/** What the code asks of the operating system, reduced to data: which paths
    exist and which are directories, the environment, and the answers of
    `glob`, `listdir`, `abspath`, file reads and `yaml.load`. */
module Platform {
  import opened Wrappers
  import opened YamlConfig

  /** `os.path.exists` and `os.path.isdir`, as the sets of paths for which
      they hold. */
  datatype FileSystem = FileSystem(existing: set<string>, dirs: set<string>)

  datatype Host = Host(
    env: map<string, string>,               // os.environ
    fs: FileSystem,
    abspath: string -> string,              // os.path.abspath, relative to the working directory
    glob: string -> seq<string>,            // glob.glob, in the order it lists matches
    listdir: string -> seq<string>,         // os.listdir, in the order it lists entries
    readText: string -> Option<string>,     // the text of a file opened for update; None when it cannot be opened
    loadYaml: string -> Result<Value, string>)  // yaml.load of a file's text: the document, or the parser's error
}
