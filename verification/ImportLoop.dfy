/** The import loop of the parser (pkg/parse/parse.go): a queue of files to parse, over an
    import graph that may have cycles and duplicates. */
module ImportLoop {
  import opened Ordering

  /** What reading and parsing a file gives: its imports, or an error. */
  datatype File = Parsed(imports: seq<string>) | Unparsable

  datatype Failure = NoInput | Unreadable(name: string) | BadSyntax(name: string) | Absolute(name: string)

  /** On success the files, in the order they were parsed. */
  datatype Result = Ok(parsed: seq<string>) | Failed(why: Failure)

  datatype Setup = Setup(files: map<string, File>, allowAbsolute: bool)

  const Extension := ".sysl"

  predicate HasSuffix(s: string, suffix: string) {
    |suffix| <= |s| && s[|s| - |suffix|..] == suffix
  }

  function WithExtension(name: string): string {
    if HasSuffix(name, Extension) then name else name + Extension
  }

  /** The name of a file has the extension ".sysl", which is put behind one that has not. */
  lemma ExtensionIsPut(name: string)
    ensures var r := WithExtension(name);
      && |r| >= 5 && r[|r| - 5..] == ".sysl" && (r == name || r == name + ".sysl")
      && (r == name <==> |name| >= 5 && name[|name| - 5..] == ".sysl")
  {
    var r := name + Extension;
    assert r[|r| - 5..] == ".sysl";
  }

  predicate IsAbsolute(name: string) {
    name != "" && name[0] == '/'
  }

  function ImportsOf(s: Setup, name: string): seq<string> {
    if name in s.files && s.files[name].Parsed? then s.files[name].imports else []
  }

  // ---- the closure of a file under imports -------------------------------------

  ghost predicate IsChain(s: Setup, root: string, p: seq<string>) {
    p != [] && p[0] == root && forall i | 0 <= i < |p| - 1 :: p[i + 1] in ImportsOf(s, p[i])
  }

  /** The file is imported, directly or through others, or is the root itself. */
  ghost predicate InClosure(s: Setup, root: string, name: string) {
    exists p :: IsChain(s, root, p) && p[|p| - 1] == name
  }

  lemma RootInClosure(s: Setup, root: string)
    ensures InClosure(s, root, root)
  {
    assert IsChain(s, root, [root]);
  }

  lemma ImportsInClosure(s: Setup, root: string, name: string)
    requires InClosure(s, root, name)
    ensures forall i | i in ImportsOf(s, name) :: InClosure(s, root, i)
  {
    var p :| IsChain(s, root, p) && p[|p| - 1] == name;
    forall i | i in ImportsOf(s, name) ensures InClosure(s, root, i) {
      assert IsChain(s, root, p + [i]) && (p + [i])[|p + [i]| - 1] == i;
    }
  }

  /** A set with the root that is closed under imports has the whole closure. */
  lemma {:induction false} ClosureIsLeast(s: Setup, root: string, names: set<string>, p: seq<string>)
    requires IsChain(s, root, p) && root in names && forall n, i | n in names && i in ImportsOf(s, n) :: i in names
    ensures p[|p| - 1] in names
    decreases |p|
  {
    if |p| > 1 {
      var init := p[..|p| - 1];
      ClosureIsLeast(s, root, names, init);
      assert p[|p| - 2 + 1] in ImportsOf(s, p[|p| - 2]);
    }
  }

  /** A file that can be parsed, and is not outside the directory unless that is allowed. */
  predicate Acceptable(s: Setup, root: string, name: string) {
    name in s.files && s.files[name].Parsed? && (name == root || s.allowAbsolute || !IsAbsolute(name))
  }

  ghost predicate AllAcceptable(s: Setup, root: string) {
    forall n {:trigger InClosure(s, root, n)} | InClosure(s, root, n) :: Acceptable(s, root, n)
  }

  function Members(names: seq<string>): set<string> {
    set x | x in names
  }

  // ---- the loop ----------------------------------------------------------------

  ghost predicate Followed(s: Setup, name: string, names: set<string>) {
    forall i | i in ImportsOf(s, name) :: i in names
  }

  /** What the loop keeps: everything imported by a parsed file is parsed or waiting, and
      everything is in the closure. */
  ghost predicate Invariant(s: Setup, root: string, parsed: set<string>, waiting: set<string>) {
    && root in parsed + waiting
    && (forall n {:trigger InClosure(s, root, n)} | n in parsed + waiting :: InClosure(s, root, n))
    && (forall n {:trigger Acceptable(s, root, n)} | n in parsed :: Acceptable(s, root, n))
    && (forall n {:trigger Followed(s, n, parsed + waiting)} | n in parsed :: Followed(s, n, parsed + waiting))
  }

  lemma Finished(s: Setup, root: string, parsed: set<string>, waiting: set<string>)
    requires Invariant(s, root, parsed, waiting) && waiting <= parsed
    ensures forall n :: n in parsed <==> InClosure(s, root, n)
    ensures AllAcceptable(s, root)
  {
    assert parsed + waiting == parsed;
    forall n, i | n in parsed && i in ImportsOf(s, n) ensures i in parsed { assert Followed(s, n, parsed + waiting); }
    forall n | InClosure(s, root, n) ensures n in parsed {
      var p :| IsChain(s, root, p) && p[|p| - 1] == n;
      ClosureIsLeast(s, root, parsed, p);
    }
    forall n {:trigger InClosure(s, root, n)} | InClosure(s, root, n) ensures Acceptable(s, root, n) {}
  }

  lemma ParsedOne(s: Setup, root: string, parsed: set<string>, waiting: set<string>, name: string)
    requires Invariant(s, root, parsed, waiting + {name}) && name !in parsed && Acceptable(s, root, name)
    ensures Invariant(s, root, parsed + {name}, waiting + Members(ImportsOf(s, name)))
    ensures |s.files.Keys - (parsed + {name})| < |s.files.Keys - parsed|
  {
    assert InClosure(s, root, name);
    ImportsInClosure(s, root, name);
    var now := (parsed + {name}) + (waiting + Members(ImportsOf(s, name)));
    forall n {:trigger Followed(s, n, now)} | n in parsed + {name} ensures Followed(s, n, now) {
      if n != name { assert Followed(s, n, parsed + (waiting + {name})); }
    }
    assert s.files.Keys - parsed == (s.files.Keys - (parsed + {name})) + {name};
  }

  lemma Rejected(s: Setup, root: string, parsed: set<string>, waiting: set<string>, name: string)
    requires Invariant(s, root, parsed, waiting) && name in waiting && !Acceptable(s, root, name)
    ensures !AllAcceptable(s, root)
  {
    assert InClosure(s, root, name);
  }

  class Listener {
    var imports: seq<string>

    constructor ()
      ensures imports == []
    {
      imports := [];
    }

    /** Walking the tree of a file queues its imports. */
    method Walk(file: File)
      requires file.Parsed?
      modifies this
      ensures imports == old(imports) + file.imports
    {
      imports := imports + file.imports;
    }

    /** Takes files off the queue until one is new; the last one taken otherwise. */
    method NextSource(s: Setup, imported: set<string>) returns (source: string, failed: bool, ghost k: nat)
      requires imports != []
      modifies this
      ensures k < |old(imports)| && source == old(imports)[k] && imports == old(imports)[k + 1..]
      ensures (forall j | 0 <= j < k :: old(imports)[j] in imported) && (source in imported ==> imports == [])
      ensures failed <==> source !in imported && !s.allowAbsolute && IsAbsolute(source)
    {
      k := 0;
      source, imports := imports[0], imports[1..];
      while source in imported && |imports| > 0
        invariant k < |old(imports)| && source == old(imports)[k] && imports == old(imports)[k + 1..]
        invariant forall j | 0 <= j < k :: old(imports)[j] in imported
        decreases |imports|
      {
        source, imports, k := imports[0], imports[1..], k + 1;
      }
      failed := source !in imported && !s.allowAbsolute && IsAbsolute(source);
    }
  }

  lemma NextIsWaiting(s: Setup, root: string, parsed: set<string>, queue: seq<string>, k: nat)
    requires Invariant(s, root, parsed, Members(queue)) && k < |queue| && forall j | 0 <= j < k :: queue[j] in parsed
    ensures Invariant(s, root, parsed, Members(queue[k + 1..]) + {queue[k]})
  {
    forall i ensures i in parsed + Members(queue) <==> i in parsed + (Members(queue[k + 1..]) + {queue[k]}) {
      if i in Members(queue) {
        var j :| 0 <= j < |queue| && queue[j] == i;
        if j > k { assert queue[k + 1..][j - k - 1] == i; }
      }
    }
    assert parsed + Members(queue) == parsed + (Members(queue[k + 1..]) + {queue[k]});
  }

  lemma QueuedAre(before: seq<string>, more: seq<string>)
    ensures Members(before + more) == Members(before) + Members(more)
  {
  }

  lemma Appended(names: seq<string>, name: string)
    requires Distinct(names) && name !in Members(names)
    ensures Distinct(names + [name]) && Members(names + [name]) == Members(names) + {name}
  {
  }

  /** Why a file taken off the queue is not accepted. */
  function Rejection(s: Setup, source: string): Failure {
    if source !in s.files then Unreadable(source) else BadSyntax(source)
  }

  /** The reason given is one: the file is imported, and there, and cannot be taken. */
  ghost predicate IsReason(s: Setup, root: string, why: Failure) {
    match why
    case NoInput => root !in s.files
    case Unreadable(name) => name !in s.files && InClosure(s, root, name)
    case BadSyntax(name) => name in s.files && s.files[name].Unparsable? && InClosure(s, root, name)
    case Absolute(name) => name != "" && name[0] == '/' && name != root && !s.allowAbsolute && InClosure(s, root, name)
  }

  /** Ends for every import graph; parses no file twice; on success has parsed exactly the
      closure of the root, and succeeds exactly when all of it is acceptable. */
  method Parse(s: Setup, filename: string) returns (r: Result)
    ensures var root := WithExtension(filename);
      && (r.Ok? <==> AllAcceptable(s, root))
      && (r.Ok? ==> Distinct(r.parsed) && r.parsed != [] && r.parsed[0] == root && forall n :: n in r.parsed <==> InClosure(s, root, n))
      && (r.Failed? ==> IsReason(s, root, r.why))
  {
    var root := WithExtension(filename);
    RootInClosure(s, root);
    if root !in s.files { return Failed(NoInput); }
    r := ParseAll(s, root);
  }

  method ParseAll(s: Setup, root: string) returns (r: Result)
    requires InClosure(s, root, root)
    ensures r.Ok? <==> AllAcceptable(s, root)
    ensures r.Ok? ==> Distinct(r.parsed) && r.parsed != [] && r.parsed[0] == root && forall n :: n in r.parsed <==> InClosure(s, root, n)
    ensures r.Failed? ==> IsReason(s, root, r.why)
  {
    var source, parsed, imported: set<string> := root, [], {};
    var listener := new Listener();
    while true
      invariant if parsed == [] then source == root else parsed[0] == root
      invariant fresh(listener) && imported == Members(parsed) && Distinct(parsed) && source !in imported
      invariant Invariant(s, root, imported, Members(listener.imports) + {source})
      invariant (root in imported || source == root) && (source == root || s.allowAbsolute || !IsAbsolute(source))
      decreases |s.files.Keys - imported|
    {
      if source !in s.files || s.files[source].Unparsable? {
        Rejected(s, root, imported, Members(listener.imports) + {source}, source);
        assert InClosure(s, root, source);
        return Failed(Rejection(s, source));
      }
      ParsedOne(s, root, imported, Members(listener.imports), source);
      QueuedAre(listener.imports, ImportsOf(s, source));
      listener.Walk(s.files[source]);
      Appended(parsed, source);
      parsed := parsed + [source];
      if |listener.imports| == 0 {
        Finished(s, root, imported + {source}, {});
        return Ok(parsed);
      }
      imported := imported + {source};
      ghost var queue := listener.imports;
      var failed;
      ghost var k;
      source, failed, k := listener.NextSource(s, imported);
      NextIsWaiting(s, root, imported, queue, k);
      if failed {
        Rejected(s, root, imported, Members(queue[k + 1..]) + {source}, source);
        assert InClosure(s, root, source) && source != root;
        return Failed(Absolute(source));
      }
      if source in imported {
        Finished(s, root, imported, Members(listener.imports) + {source});
        return Ok(parsed);
      }
    }
  }
}
