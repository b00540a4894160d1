/** Directory trees, and the two recursive walks over them in db_backup.rs. */
module FileTree {
  datatype Tree = File(content: string) | Dir(entries: map<string, Tree>)

  const SESSION_LOG_SUFFIX := ".jsonl"

  predicate IsSessionLog(name: string) {
    |name| >= |SESSION_LOG_SUFFIX| && name[|name| - |SESSION_LOG_SUFFIX|..] == SESSION_LOG_SUFFIX
  }

  // The session logs under an entry of this name: a directory counts by what it holds.
  ghost function LogsIn(name: string, t: Tree): nat
    decreases t, 1
  {
    match t
    case File(_) => if IsSessionLog(name) then 1 else 0
    case Dir(entries) => LogsUnder(entries.Keys, entries, t)
  }

  // The session logs under some of the entries of the directory `t`.
  ghost function LogsUnder(names: set<string>, entries: map<string, Tree>, t: Tree): nat
    requires t == Dir(entries) && names <= entries.Keys
    decreases t, 0, |names|
  {
    if names == {} then 0
    else
      var n :| n in names;
      LogsIn(n, entries[n]) + LogsUnder(names - {n}, entries, t)
  }

  // In whatever order the directory is read, the sum is the same.
  lemma {:induction false} LogsTakeOne(names: set<string>, entries: map<string, Tree>, t: Tree, x: string)
    requires t == Dir(entries) && names <= entries.Keys && x in names
    ensures LogsUnder(names, entries, t) == LogsIn(x, entries[x]) + LogsUnder(names - {x}, entries, t)
    decreases |names|
  {
    var n :| n in names && LogsUnder(names, entries, t) == LogsIn(n, entries[n]) + LogsUnder(names - {n}, entries, t);
    if n != x {
      LogsTakeOne(names - {n}, entries, t, x);
      LogsTakeOne(names - {x}, entries, t, n);
      assert names - {n} - {x} == names - {x} - {n};
    }
  }

  // A file of the tree: the names that lead to it, none for the tree itself.
  ghost predicate FileAt(t: Tree, path: seq<string>) {
    match t
    case File(_) => path == []
    case Dir(entries) => path != [] && path[0] in entries && FileAt(entries[path[0]], path[1..])
  }

  // A session log is a file whose name ends in `.jsonl`, at any depth.
  ghost predicate LogAt(name: string, t: Tree, path: seq<string>) {
    var leaf := if path == [] then name else path[|path| - 1];
    FileAt(t, path) && exists stem :: leaf == stem + ".jsonl"
  }

  lemma SuffixIsJsonl(name: string)
    ensures IsSessionLog(name) <==> exists stem :: name == stem + ".jsonl"
  {
    if IsSessionLog(name) { assert name == name[..|name| - 6] + ".jsonl"; }
    if stem :| name == stem + ".jsonl" { assert name[|name| - 6..] == ".jsonl"; }
  }

  // What is counted are those files, each once.
  lemma {:induction false} LogsAreFiles(name: string, t: Tree) returns (paths: set<seq<string>>)
    ensures forall path :: path in paths <==> LogAt(name, t, path)
    ensures LogsIn(name, t) == |paths|
    decreases t, 1
  {
    match t
    case File(_) =>
      SuffixIsJsonl(name);
      paths := if IsSessionLog(name) then {[]} else {};
    case Dir(entries) =>
      paths := LogsUnderAreFiles(entries.Keys, entries, t);
      forall path ensures path in paths <==> LogAt(name, t, path) { }
  }

  lemma {:induction false} LogsUnderAreFiles(names: set<string>, entries: map<string, Tree>, t: Tree)
    returns (paths: set<seq<string>>)
    requires t == Dir(entries) && names <= entries.Keys
    ensures forall path :: path in paths <==> path != [] && path[0] in names && LogAt("", t, path)
    ensures LogsUnder(names, entries, t) == |paths|
    decreases t, 0, |names|
  {
    if names == {} { return {}; }
    var n :| n in names && LogsUnder(names, entries, t) == LogsIn(n, entries[n]) + LogsUnder(names - {n}, entries, t);
    var below := LogsAreFiles(n, entries[n]);
    var others := LogsUnderAreFiles(names - {n}, entries, t);
    var here := Below(n, below);
    paths := here + others;
    assert here !! others;
    forall path ensures path in paths <==> path != [] && path[0] in names && LogAt("", t, path) {
      if path != [] && path[0] == n { LogDown(n, entries, t, path); }
    }
  }

  lemma LogDown(n: string, entries: map<string, Tree>, t: Tree, path: seq<string>)
    requires t == Dir(entries) && n in entries && path != [] && path[0] == n
    ensures LogAt("", t, path) <==> LogAt(n, entries[n], path[1..])
  {
    assert FileAt(t, path) <==> FileAt(entries[n], path[1..]);
    if |path| > 1 { assert path[|path| - 1] == path[1..][|path| - 2]; }
  }

  // The same files, seen from the directory that holds `n`.
  lemma {:induction false} Below(n: string, paths: set<seq<string>>) returns (longer: set<seq<string>>)
    ensures |longer| == |paths|
    ensures forall path :: path in longer <==> path != [] && path[0] == n && path[1..] in paths
  {
    longer := {};
    if paths != {} {
      var p :| p in paths;
      var rest := Below(n, paths - {p});
      assert ([n] + p)[1..] == p;
      longer := rest + {[n] + p};
      forall path ensures path in longer <==> path != [] && path[0] == n && path[1..] in paths {
        if path != [] && path[0] == n { assert path == [n] + path[1..]; }
      }
    }
  }

  // The recursive walk with a running count.
  method CountSessionLogs(root: Tree) returns (count: nat)
    ensures count == LogsIn("", root)
  {
    count := 0;
    match root
    case File(_) =>
    case Dir(entries) =>
      var left := entries.Keys;
      while left != {}
        invariant left <= entries.Keys
        invariant count + LogsUnder(left, entries, root) == LogsUnder(entries.Keys, entries, root)
        decreases |left|
      {
        var name :| name in left;
        LogsTakeOne(left, entries, root, name);
        match entries[name] {
          case Dir(_) =>
            var below := CountSessionLogs(entries[name]);
            count := count + below;
          case File(_) =>
            if IsSessionLog(name) { count := count + 1; }
        }
        left := left - {name};
      }
  }

  // The recursive copy into a destination that is not there yet.
  method CopyDirAll(src: Tree) returns (dst: Tree)
    requires src.Dir?
    ensures dst == src
  {
    var made: map<string, Tree> := map[];
    var left := src.entries.Keys;
    while left != {}
      invariant left <= src.entries.Keys && made == src.entries - left
      decreases |left|
    {
      var name :| name in left;
      var entry := src.entries[name];
      match entry {
        case Dir(_) => var copy := CopyDirAll(entry); made := made[name := copy];
        case File(content) => made := made[name := File(content)];
      }
      left := left - {name};
    }
    assert src.entries - {} == src.entries;
    dst := Dir(made);
  }
}
