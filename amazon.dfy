/**
 * The Amazon account provider: its descriptor and deployProject, which zips
 * the project directory for Elastic Beanstalk. The directory tree is a value
 * (what readdirSync and statSync report); reading file contents, building the
 * archive and the result of writing it are outside the model, the write's
 * error being an oracle.
 */
module Amazon {
  import opened Wrappers
  import opened Js
  import opened Cli
  import opened Providers

  const Name := "amazon"
  const SignupUri := "https://aws.amazon.com"

  const Descriptor := Provider(Name, Some(SignupUri), [], {DeployProjectFn})

  /** A directory entry: a file, or a directory with its own listing. */
  datatype Entry = File(name: string) | Dir(name: string, entries: seq<Entry>)

  /** The entries getFiles passes over: node_modules, directories starting with `.`, `.DS_Store` files. */
  predicate Skipped(e: Entry) {
    match e
    case Dir(name, _) => name == "node_modules" || (|name| > 0 && name[0] == '.')
    case File(name) => name == ".DS_Store"
  }

  /** The files getFiles collects under `dir`, depth first in listing order. */
  function Collect(dir: string, entries: seq<Entry>): seq<string>
    decreases entries
  {
    if entries == [] then [] else EntryFiles(dir, entries[0]) + Collect(dir, entries[1..])
  }

  /** The files one entry of `dir` contributes. */
  function EntryFiles(dir: string, e: Entry): seq<string>
    decreases e
  {
    if Skipped(e) then []
    else match e
      case File(name) => [dir + "/" + name]
      case Dir(name, children) => Collect(dir + "/" + name, children)
  }

  /** Collecting a listing in two parts collects each part, in order. */
  lemma {:induction false} CollectAppend(dir: string, first: seq<Entry>, second: seq<Entry>)
    ensures Collect(dir, first + second) == Collect(dir, first) + Collect(dir, second)
    decreases |first|
  {
    if first == [] {
      assert first + second == second;
    } else {
      assert (first + second)[1..] == first[1..] + second;
      CollectAppend(dir, first[1..], second);
    }
  }

  /**
   * `getFiles(dir, files)`: appends the files under `dir` to the shared
   * `files` list, descending into directories as it meets them.
   */
  method GetFiles(dir: string, listing: seq<Entry>, files: seq<string>) returns (result: seq<string>)
    ensures result == files + Collect(dir, listing)
    decreases listing
  {
    result := files;
    var i := 0;
    while i < |listing|
      invariant 0 <= i <= |listing|
      invariant result == files + Collect(dir, listing[..i])
    {
      var entry := listing[i];
      var name := dir + "/" + entry.name;
      CollectAppend(dir, listing[..i], [entry]);
      assert listing[..i + 1] == listing[..i] + [entry];
      assert Collect(dir, [entry]) == EntryFiles(dir, entry) by {
        assert [entry][1..] == [];
      }
      if entry.Dir? {
        if entry.name == "node_modules" || (|entry.name| > 0 && entry.name[0] == '.') {
          i := i + 1;
          continue;
        }
        result := GetFiles(name, entry.entries, result);
      } else {
        if entry.name == ".DS_Store" {
          i := i + 1;
          continue;
        }
        result := result + [name];
      }
      i := i + 1;
    }
    assert listing[..|listing|] == listing;
  }

  /** A skipped entry contributes nothing, whatever a skipped directory holds. */
  lemma SkippedContributesNothing(dir: string, before: seq<Entry>, e: Entry, after: seq<Entry>)
    requires Skipped(e)
    ensures Collect(dir, before + [e] + after) == Collect(dir, before + after)
  {
    CollectAppend(dir, before + [e], after);
    CollectAppend(dir, before, [e]);
    CollectAppend(dir, before, after);
    assert Collect(dir, [e]) == [] by {
      assert [e][1..] == [];
    }
  }

  /** Every other file of the listing is collected, dot files included. */
  lemma {:induction false} KeptFile(dir: string, entries: seq<Entry>, i: nat)
    requires i < |entries| && entries[i].File? && entries[i].name != ".DS_Store"
    ensures dir + "/" + entries[i].name in Collect(dir, entries)
    decreases i
  {
    if i > 0 {
      KeptFile(dir, entries[1..], i - 1);
    }
  }

  /** `p` lies below `dir`: it starts with `dir` and a slash. */
  predicate Under(p: string, dir: string) {
    |p| > |dir| && p[..|dir| + 1] == dir + "/"
  }

  lemma UnderParent(p: string, dir: string, name: string)
    requires Under(p, dir + "/" + name)
    ensures Under(p, dir)
  {
    assert p[..|dir| + 1] == p[..|dir + "/" + name| + 1][..|dir| + 1];
  }

  /** Every collected path lies below the directory it was collected from. */
  lemma {:induction false} CollectUnder(dir: string, entries: seq<Entry>)
    ensures forall p :: p in Collect(dir, entries) ==> Under(p, dir)
    decreases entries
  {
    if entries != [] {
      EntryUnder(dir, entries[0]);
      CollectUnder(dir, entries[1..]);
    }
  }

  lemma {:induction false} EntryUnder(dir: string, e: Entry)
    ensures forall p :: p in EntryFiles(dir, e) ==> Under(p, dir)
    decreases e
  {
    if !Skipped(e) {
      match e
      case File(name) =>
        assert (dir + "/" + name)[..|dir| + 1] == dir + "/";
      case Dir(name, children) =>
        CollectUnder(dir + "/" + name, children);
        forall p | p in Collect(dir + "/" + name, children) ensures Under(p, dir) {
          UnderParent(p, dir, name);
        }
    }
  }

  /** `s.slice(k)`: the characters from position k on, empty past the end. */
  function SliceFrom(s: string, k: nat): string {
    if k <= |s| then s[k..] else ""
  }

  /**
   * `writeZip(srcDirectory, zipFile, cb)` up to the archive: the files
   * collected, and for each the entry name it is stored under.
   */
  method ZipEntries(srcDir: string, listing: seq<Entry>) returns (files: seq<string>, names: seq<string>)
    ensures files == Collect(srcDir, listing)
    ensures |names| == |files|
    ensures forall i :: 0 <= i < |files| ==> srcDir + "/" + names[i] == files[i]
  {
    files := GetFiles(srcDir, listing, []);
    CollectUnder(srcDir, listing);
    names := [];
    var i := 0;
    while i < |files|
      invariant 0 <= i <= |files| && |names| == i
      invariant forall j :: 0 <= j < i ==> srcDir + "/" + names[j] == files[j]
    {
      var name := SliceFrom(files[i], |srcDir| + 1);
      assert Under(files[i], srcDir);
      assert srcDir + "/" + name == files[i][..|srcDir| + 1] + files[i][|srcDir| + 1..];
      names := names + [name];
      i := i + 1;
    }
  }

  /**
   * `deployProject(account, project, options, cb)`: the zip goes to
   * `<deploymentsDir>/<account name>.zip`; the callback gets the write's
   * error or the upload hint.
   */
  method DeployProject(accountName: Value, deploymentsDir: string, srcDir: string, listing: seq<Entry>,
                       writeError: Option<string>)
    returns (zipFile: string, names: seq<string>, reply: Completion)
    ensures zipFile == deploymentsDir + "/" + ToJsString(accountName) + ".zip"
    ensures |names| == |Collect(srcDir, listing)|
    ensures forall i :: 0 <= i < |names| ==> srcDir + "/" + names[i] == Collect(srcDir, listing)[i]
    ensures writeError.Some? ==> reply == Completion(writeError, Undefined)
    ensures writeError.None? ==> reply == Completion(None, Str("You may now upload this file to Elastic Beanstalk."))
  {
    zipFile := deploymentsDir + "/" + ToJsString(accountName) + ".zip";
    var files;
    files, names := ZipEntries(srcDir, listing);
    if writeError.Some? {
      reply := Completion(writeError, Undefined);
      return;
    }
    reply := Completion(None, Str("You may now upload this file to Elastic Beanstalk."));
  }
}
