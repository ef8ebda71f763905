/** The files the translation runs read and write, kept as already-parsed values. */
module Storage {
  import opened Translator

  /** What a JSON file holds for the scripts: a job (its `translations` list; a document
      without one reads as an empty job), or something `load_json` cannot use (invalid JSON,
      or an empty document, which is falsy). */
  datatype Content = Job(items: seq<Item>) | Unusable

  /** The file system, as far as the runs see it: path to content. */
  class Disk {
    var files: map<string, Content>

    constructor (files: map<string, Content>)
      ensures this.files == files
    {
      this.files := files;
    }

    /** `save_json(path, data)` */
    method Save(path: string, items: seq<Item>)
      modifies this
      ensures files == old(files)[path := Job(items)]
    {
      files := files[path := Job(items)];
    }

    /** `if os.path.exists(path): os.remove(path)` */
    method RemoveIfExists(path: string)
      modifies this
      ensures files == old(files) - {path}
    {
      if path in files {
        files := files - {path};
      }
    }
  }

  /** `load_json(path)`, with `None` for a missing file and for a content that is falsy or
      does not parse. */
  function Load(files: map<string, Content>, path: string): (r: Option<seq<Item>>)
    ensures r.Some? <==> path in files && files[path].Job?
  {
    if path in files && files[path].Job? then Some(files[path].items) else None
  }

  import opened Wrappers
}
