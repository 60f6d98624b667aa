/** `helpers` of the metadata and admission fixtures: the hashes of a script and of every
    script it names, directly or not, found with a worklist. */
module Worklist {
  import opened Bytes

  /** A script: its bytes, and the last path components of its string constants in the order
      the syntax tree is walked. */
  datatype Script = Script(data: Octets, names: seq<string>)

  type Directory = map<string, Script>

  const PREFIX: string := "audit-steam-"
  const SUFFIX: string := ".py"

  predicate Dependency(files: Directory, name: string) {
    && PREFIX <= name
    && |SUFFIX| <= |name| && name[|name| - |SUFFIX|..] == SUFFIX
    && name in files
  }

  /** `from` names `name` as a dependency. */
  predicate Names(files: Directory, from: string, name: string) {
    from in files && name in files[from].names && Dependency(files, name)
  }

  ghost predicate Path(files: Directory, path: seq<string>) {
    path != [] && forall i :: 0 <= i < |path| - 1 ==> Names(files, path[i], path[i + 1])
  }

  ghost predicate Reachable(files: Directory, root: string, name: string) {
    exists path :: Path(files, path) && path[0] == root && path[|path| - 1] == name
  }

  /** The result of the search: the reachable scripts with their own hashes, and nothing else. */
  ghost predicate Complete(files: Directory, root: string, digest: Octets -> string, hashes: map<string, string>) {
    && (forall name :: name in hashes <==> Reachable(files, root, name))
    && (forall name :: name in hashes ==> name in files && hashes[name] == digest(files[name].data))
  }

  /** The dependencies among `names`, in order and with repetitions. */
  function Dependencies(files: Directory, names: seq<string>): (listed: seq<string>)
    ensures forall name :: name in listed <==> name in names && Dependency(files, name)
  {
    if names == [] then []
    else
      var n := |names| - 1;
      var listed := Dependencies(files, names[..n]);
      if Dependency(files, names[n]) then listed + [names[n]] else listed
  }

  /** The search in progress, told against the set it is to find: everything listed or hashed
      is in it, and a dependency of a hashed script is listed or hashed itself. */
  ghost predicate Searching(files: Directory, reach: iset<string>, digest: Octets -> string,
                            pending: seq<string>, hashes: map<string, string>) {
    && (forall name :: name in pending ==> name in files && name in reach)
    && (forall name :: name in hashes ==> name in reach && name in files && hashes[name] == digest(files[name].data))
    && (forall from, name :: from in hashes && Names(files, from, name) ==> name in pending || name in hashes)
  }

  ghost predicate ClosedUnderNames(files: Directory, reach: iset<string>) {
    forall from, name :: from in reach && Names(files, from, name) ==> name in reach
  }

  /** Terminates on every directory, dependency cycles included: each turn hashes a new script
      or shortens the list. A missing root raises when it is read. */
  method Helpers(files: Directory, root: string, digest: Octets -> string)
    returns (r: Result<map<string, string>>)
    ensures r.Ok? <==> root in files
    ensures r.Ok? ==> Complete(files, root, digest, r.value)
  {
    if root !in files {
      return Raised;
    }
    var pending, hashes := [root], map[];
    ghost var reach := ReachableSet(files, root);
    while pending != []
      invariant Searching(files, reach, digest, pending, hashes)
      invariant root in pending || root in hashes
      decreases |files.Keys - hashes.Keys|, |pending|
    {
      var name := pending[|pending| - 1];
      SplitLast(pending);
      pending := pending[..|pending| - 1];
      if name in hashes {
        continue;
      }
      TurnKeepsSearching(files, reach, digest, pending, name, hashes);
      HashingProgresses(files, hashes, name, digest(files[name].data));
      hashes := hashes[name := digest(files[name].data)];
      pending := ListDependencies(files, files[name].names, pending);
    }
    SearchComplete(files, root, digest, hashes);
    r := Ok(hashes);
  }

  method ListDependencies(files: Directory, names: seq<string>, kept: seq<string>) returns (pending: seq<string>)
    ensures pending == kept + Dependencies(files, names)
  {
    pending := kept;
    for i := 0 to |names|
      invariant pending == kept + Dependencies(files, names[..i])
    {
      assert names[..i + 1][..i] == names[..i];
      if Dependency(files, names[i]) {
        pending := pending + [names[i]];
      }
    }
    assert names[..|names|] == names;
  }

  lemma SplitLast<T>(s: seq<T>)
    requires s != []
    ensures s == s[..|s| - 1] + [s[|s| - 1]]
    ensures s[|s| - 1] in s && forall x :: x in s ==> x == s[|s| - 1] || x in s[..|s| - 1]
  {}

  lemma TurnKeepsSearching(files: Directory, reach: iset<string>, digest: Octets -> string,
                           pending: seq<string>, name: string, hashes: map<string, string>)
    requires ClosedUnderNames(files, reach)
    requires Searching(files, reach, digest, pending + [name], hashes) && name !in hashes
    ensures name in files
    ensures Searching(files, reach, digest, pending + Dependencies(files, files[name].names),
                      hashes[name := digest(files[name].data)])
  {
    assert name in pending + [name];
    forall other | other in Dependencies(files, files[name].names)
      ensures other in files && other in reach
    {
      assert Names(files, name, other);
    }
  }

  lemma HashingProgresses(files: Directory, hashes: map<string, string>, name: string, hash: string)
    requires name in files && name !in hashes
    ensures |files.Keys - hashes[name := hash].Keys| < |files.Keys - hashes.Keys|
  {
    assert files.Keys - hashes[name := hash].Keys == files.Keys - hashes.Keys - {name};
  }

  lemma ReachableSet(files: Directory, root: string) returns (reach: iset<string>)
    ensures ClosedUnderNames(files, reach) && root in reach
    ensures reach == iset name | Reachable(files, root, name)
  {
    reach := iset name | Reachable(files, root, name);
    assert Path(files, [root]) && [root][0] == root;
    forall from, name | from in reach && Names(files, from, name)
      ensures name in reach
    {
      Extend(files, root, from, name);
    }
  }

  lemma SearchComplete(files: Directory, root: string, digest: Octets -> string, hashes: map<string, string>)
    requires Searching(files, (iset name | Reachable(files, root, name)), digest, [], hashes) && root in hashes
    ensures Complete(files, root, digest, hashes)
  {
    forall name | Reachable(files, root, name)
      ensures name in hashes
    {
      var path :| Path(files, path) && path[0] == root && path[|path| - 1] == name;
      Closed(files, hashes.Keys, path);
    }
  }

  lemma Extend(files: Directory, root: string, from: string, name: string)
    requires Reachable(files, root, from) && Names(files, from, name)
    ensures Reachable(files, root, name)
  {
    var path :| Path(files, path) && path[0] == root && path[|path| - 1] == from;
    var longer := path + [name];
    assert Path(files, longer) && longer[0] == root && longer[|longer| - 1] == name;
  }

  /** A path never leaves a set that contains its start and the dependencies of its members. */
  lemma {:induction false} Closed(files: Directory, members: set<string>, path: seq<string>)
    requires Path(files, path) && path[0] in members
    requires forall from, name :: from in members && Names(files, from, name) ==> name in members
    ensures path[|path| - 1] in members
    decreases |path|
  {
    if |path| > 1 {
      assert Names(files, path[0], path[1]);
      forall i | 0 <= i < |path[1..]| - 1
        ensures Names(files, path[1..][i], path[1..][i + 1])
      {
        assert Names(files, path[i + 1], path[i + 2]);
      }
      Closed(files, members, path[1..]);
    }
  }

  /** Same scripts, same names in any order and number: same result. */
  lemma OrderDoesNotMatter(a: Directory, b: Directory, root: string, digest: Octets -> string,
                           x: map<string, string>, y: map<string, string>)
    requires a.Keys == b.Keys
    requires forall name :: name in a ==> a[name].data == b[name].data
    requires forall name, other :: name in a ==> (other in a[name].names <==> other in b[name].names)
    requires Complete(a, root, digest, x) && Complete(b, root, digest, y)
    ensures x == y
  {
    forall name
      ensures Reachable(a, root, name) <==> Reachable(b, root, name)
    {
      if Reachable(a, root, name) {
        SamePaths(a, b, root, name);
      }
      if Reachable(b, root, name) {
        SamePaths(b, a, root, name);
      }
    }
    assert x.Keys == y.Keys;
  }

  lemma SamePaths(a: Directory, b: Directory, root: string, name: string)
    requires a.Keys == b.Keys
    requires forall from, other :: from in a ==> (other in a[from].names <==> other in b[from].names)
    requires Reachable(a, root, name)
    ensures Reachable(b, root, name)
  {
    var path :| Path(a, path) && path[0] == root && path[|path| - 1] == name;
    forall i | 0 <= i < |path| - 1
      ensures Names(b, path[i], path[i + 1])
    {
      assert Names(a, path[i], path[i + 1]);
    }
    assert Path(b, path);
  }

  /** A dependency is a script of the directory whose name begins with `audit-steam-` and ends with
      `.py`. */
  lemma DependencyIff(files: Directory, name: string)
    ensures Dependency(files, name)
       <==> name in files && exists middle: string :: name == "audit-steam-" + middle + ".py"
  {
    if Dependency(files, name) {
      NoOverlap(name);
      assert name == PREFIX + name[12..|name| - 3] + SUFFIX;
    }
    if middle: string :| name == "audit-steam-" + middle + ".py" {
      assert name[..12] == PREFIX && name[|name| - 3..] == SUFFIX;
    }
  }

  /** The prefix has no full stop, so the suffix lies behind it. */
  lemma NoOverlap(name: string)
    requires PREFIX <= name && 3 <= |name| && name[|name| - 3..] == SUFFIX
    ensures |name| >= 15
  {
    assert name[|name| - 3..][0] == name[|name| - 3] == '.';
    assert forall i :: 0 <= i < 12 ==> name[i] == PREFIX[i] != '.';
  }
}
