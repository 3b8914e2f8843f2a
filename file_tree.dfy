/** The file system as the scripts see it through `os.listdir`, `os.walk`,
    `os.path.join` and `os.path.basename`. Listings are given, in whatever
    order the operating system produced them. */
module FileTree {
  import opened Strings

  /** Each directory path maps to the names it lists, in listing order. A path
      that is not a key is not a directory: `os.listdir` raises on it and
      `os.path.isdir` is False. */
  type Listing = map<string, seq<string>>

  /** One step of `os.walk`: a directory and the names of the files in it. */
  datatype WalkStep = WalkStep(root: string, files: seq<string>)

  /** `os.path.join(a, b)` with POSIX rules. */
  function PathJoin(a: string, b: string): string
  {
    if |b| > 0 && b[0] == '/' then b
    else if a == "" || EndsWith(a, "/") then a + b
    else a + "/" + b
  }

  /** `os.path.basename(p)`: what follows the last '/'. */
  function Basename(p: string): (r: string)
    ensures forall i :: 0 <= i < |r| ==> r[i] != '/'
  {
    if p == [] || p[|p| - 1] == '/' then []
    else Basename(p[..|p| - 1]) + [p[|p| - 1]]
  }

  /** The base name of a joined path is the name that was joined. */
  lemma BasenameOfJoin(dir: string, name: string)
    requires |name| > 0 && forall i :: 0 <= i < |name| ==> name[i] != '/'
    ensures Basename(PathJoin(dir, name)) == name
  {
    if dir == "" || EndsWith(dir, "/") {
      BasenameAfterSlash(dir, name);
    } else {
      assert dir + "/" + name == (dir + "/") + name;
      BasenameAfterSlash(dir + "/", name);
    }
  }

  lemma {:induction false} BasenameAfterSlash(x: string, name: string)
    requires x == [] || x[|x| - 1] == '/'
    requires forall i :: 0 <= i < |name| ==> name[i] != '/'
    ensures Basename(x + name) == name
    decreases |name|
  {
    if name == [] {
      assert x + name == x;
    } else {
      var p := x + name;
      var init := name[..|name| - 1];
      assert p[..|p| - 1] == x + init;
      BasenameAfterSlash(x, init);
      assert name == init + [name[|name| - 1]];
    }
  }
}
