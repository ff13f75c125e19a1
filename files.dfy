/** The output folder as `to_strm` sees it: a map from file path to file content, and the
    write-if-absent rule for `.strm` placeholders. */
module Files {

  /** A placeholder file: where it goes and the URL it holds. */
  datatype Placeholder = Placeholder(path: string, content: string)

  /** The files on disk, written through `folders().write_file` and probed with `os.path.isfile`. */
  class FileSystem {
    var files: map<string, string>

    constructor (files: map<string, string>)
      ensures this.files == files
    {
      this.files := files;
    }

    /** `os.path.isfile(path)`. */
    predicate IsFile(path: string)
      reads this
    {
      path in files
    }

    /** `write_file(path, content)`: creates the file or replaces its content. */
    method WriteFile(path: string, content: string)
      modifies this
      ensures files == old(files)[path := content]
    {
      files := files[path := content];
    }
  }

  /** The file map after one placeholder is written unless its path is already a file. */
  function WriteIfAbsent(files: map<string, string>, p: Placeholder): map<string, string> {
    if p.path in files then files else files[p.path := p.content]
  }

  /** The file map after the placeholders are written in order, each only if absent. */
  function WriteAll(files: map<string, string>, ps: seq<Placeholder>): map<string, string>
    decreases |ps|
  {
    if ps == [] then files else WriteIfAbsent(WriteAll(files, ps[..|ps| - 1]), ps[|ps| - 1])
  }

  /** The write of one placeholder: probe, then write only when absent. */
  method WritePlaceholder(fs: FileSystem, p: Placeholder)
    modifies fs
    ensures fs.files == WriteIfAbsent(old(fs.files), p)
  {
    if !fs.IsFile(p.path) {
      fs.WriteFile(p.path, p.content);
    }
  }

  /** Writing one more placeholder of a list is one more probe-and-write. */
  lemma WriteAllSnoc(files: map<string, string>, ps: seq<Placeholder>, i: nat)
    requires i < |ps|
    ensures WriteAll(files, ps[..i + 1]) == WriteIfAbsent(WriteAll(files, ps[..i]), ps[i])
  {
    assert ps[..i + 1][..i] == ps[..i];
  }

  /** A file that exists is never rewritten. */
  lemma {:induction false} WriteAllKeeps(files: map<string, string>, ps: seq<Placeholder>, path: string)
    requires path in files
    ensures path in WriteAll(files, ps) && WriteAll(files, ps)[path] == files[path]
    decreases |ps|
  {
    if ps != [] {
      WriteAllKeeps(files, ps[..|ps| - 1], path);
    }
  }

  /** Afterwards exactly the old files and the placeholders' paths exist. */
  lemma {:induction false} WriteAllPaths(files: map<string, string>, ps: seq<Placeholder>, path: string)
    ensures path in WriteAll(files, ps) <==> path in files || exists i :: 0 <= i < |ps| && ps[i].path == path
    decreases |ps|
  {
    if ps != [] {
      var init := ps[..|ps| - 1];
      WriteAllPaths(files, init, path);
      if exists i :: 0 <= i < |init| && init[i].path == path {
        var i :| 0 <= i < |init| && init[i].path == path;
        assert ps[i].path == path;
      }
      if exists i :: 0 <= i < |ps| && ps[i].path == path {
        var i :| 0 <= i < |ps| && ps[i].path == path;
        if i < |init| {
          assert init[i].path == path;
        }
      }
    }
  }

  /** A new path holds the content of the first placeholder written to it. */
  lemma {:induction false} WriteAllFirst(files: map<string, string>, ps: seq<Placeholder>, i: nat)
    requires i < |ps| && ps[i].path !in files
    requires forall j :: 0 <= j < i ==> ps[j].path != ps[i].path
    ensures ps[i].path in WriteAll(files, ps) && WriteAll(files, ps)[ps[i].path] == ps[i].content
    decreases |ps|
  {
    var init := ps[..|ps| - 1];
    if i == |ps| - 1 {
      forall j | 0 <= j < |init| ensures init[j].path != ps[i].path {
        assert init[j] == ps[j];
      }
      WriteAllPaths(files, init, ps[i].path);
    } else {
      assert init[i] == ps[i];
      forall j | 0 <= j < i ensures init[j].path != init[i].path {
        assert init[j] == ps[j];
      }
      WriteAllFirst(files, init, i);
    }
  }

  /** Writing one list of placeholders and then another is writing their concatenation. */
  lemma {:induction false} WriteAllAppend(files: map<string, string>, a: seq<Placeholder>, b: seq<Placeholder>)
    ensures WriteAll(files, a + b) == WriteAll(WriteAll(files, a), b)
    decreases |b|
  {
    if b == [] {
      assert a + b == a;
    } else {
      var n := |b| - 1;
      assert (a + b)[..|a + b| - 1] == a + b[..n];
      assert (a + b)[|a + b| - 1] == b[n];
      WriteAllAppend(files, a, b[..n]);
    }
  }

  /** Placeholders whose paths all exist change nothing. */
  lemma {:induction false} WriteAllPresent(files: map<string, string>, ps: seq<Placeholder>)
    requires forall i :: 0 <= i < |ps| ==> ps[i].path in files
    ensures WriteAll(files, ps) == files
    decreases |ps|
  {
    if ps != [] {
      WriteAllPresent(files, ps[..|ps| - 1]);
    }
  }

  /** Writing the same placeholders a second time changes nothing. */
  lemma WriteAllIdempotent(files: map<string, string>, ps: seq<Placeholder>)
    ensures WriteAll(WriteAll(files, ps), ps) == WriteAll(files, ps)
  {
    forall i | 0 <= i < |ps| ensures ps[i].path in WriteAll(files, ps) {
      WriteAllPaths(files, ps, ps[i].path);
    }
    WriteAllPresent(WriteAll(files, ps), ps);
  }
}
