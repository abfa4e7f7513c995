/** The runtime's `search_path` entry point: finds an executable by name
    along a delimited search path. The filesystem is an oracle that answers,
    for a candidate path, what `stat` and `access(X_OK)` report; `strerror` is
    a parameter as well. */
module PathSearch {
  import opened Wrappers
  import opened CStrings
  import opened Split

  /** Characters that make a name an explicit path (POSIX build). */
  const PathDelims: string := "/"
  /** The default search-path separator (POSIX build). */
  const PathSep: string := ":"

  /** Linux errno values that the resolver skips silently. */
  const ENOENT: int := 2
  const EACCES: int := 13
  const ENOTDIR: int := 20
  const ELOOP: int := 40

  /** What probing one candidate reports: `stat` succeeded (with the file's
      regular-file bit and the outcome of `access(X_OK)`), or `stat` failed
      with an errno. */
  datatype Probe = Stat(isReg: bool, isExec: bool) | StatError(errno: int)

  datatype Resolution = Resolved(path: string) | NotFound | Fatal(message: string)

  /** The candidate wins: a regular file that is executable. */
  predicate Accepts(p: Probe)
  {
    p.Stat? && p.isReg && p.isExec
  }

  /** The errno seen after probing: `errno` is cleared before `stat`, and the
      `access` call leaves it untouched. */
  function ErrnoOf(p: Probe): int
  {
    if p.Stat? then 0 else p.errno
  }

  /** The errno values after which the next candidate is tried. */
  predicate Ignored(errno: int)
  {
    errno == 0 || errno == EACCES || errno == ELOOP || errno == ENOENT || errno == ENOTDIR
  }

  /** An empty search-path entry stands for the current directory. */
  function EntryDir(e: string): string
  {
    if e == "" then "." else e
  }

  function Candidate(e: string, name: string): string
  {
    EntryDir(e) + PathDelims[..1] + name
  }

  /** The candidate built from entry `e` is passed over without an error. */
  predicate Skipped(e: string, name: string, probe: string -> Probe)
  {
    var p := probe(Candidate(e, name));
    !Accepts(p) && Ignored(ErrnoOf(p))
  }

  /** The candidate built from entry `e` stops the search with an error. */
  predicate Fails(e: string, name: string, probe: string -> Probe)
  {
    var p := probe(Candidate(e, name));
    !Accepts(p) && !Ignored(ErrnoOf(p))
  }

  function FatalMessage(errText: string, dir: string, name: string): string
  {
    "fatal error attempting to resolve path: " + errText + ": " + dir + PathDelims[..1] + name
      + " (attempting to find '" + name + "' in '" + dir + "')"
  }

  /** The search over the entries in order: the first accepted candidate
      wins, an ignored error moves on, any other error is raised. */
  function ResolveIn(entries: seq<string>, name: string, probe: string -> Probe, strerror: int -> string): Resolution
    decreases |entries|
  {
    if entries == [] then NotFound
    else
      var full := Candidate(entries[0], name);
      var p := probe(full);
      if Accepts(p) then Resolved(full)
      else if Ignored(ErrnoOf(p)) then ResolveIn(entries[1..], name, probe, strerror)
      else Fatal(FatalMessage(strerror(ErrnoOf(p)), EntryDir(entries[0]), name))
  }

  function SearchDelims(delim: Option<string>): set<char>
  {
    DelimSet(if delim.Some? then delim.value else PathSep)
  }

  /** The whole resolver: a name with a path separator is returned as given;
      otherwise the entries of the search path are tried in order. */
  function Resolve(name: string, pathString: string, delim: Option<string>,
                   probe: string -> Probe, strerror: int -> string): Resolution
  {
    if FirstIn(CStr(name), 0, DelimSet(PathDelims)) < |CStr(name)| then Resolved(name)
    else ResolveIn(Tokens(CStr(pathString), SearchDelims(delim)), CStr(name), probe, strerror)
  }

  function Rest(s: string, cursor: Cursor, d: set<char>): seq<string>
    requires cursor.At? ==> cursor.pos <= |s|
  {
    if cursor.At? then TokensFrom(s, cursor.pos, d) else []
  }

  /** `search_path`, step by step: the same strsep loop with a `found` flag
      as the runtime runs it. */
  method SearchPath(name: string, pathString: string, delim: Option<string>,
                    probe: string -> Probe, strerror: int -> string) returns (r: Resolution)
    ensures r == Resolve(name, pathString, delim, probe, strerror)
    ensures '/' in CStr(name) ==> r == Resolved(name)
  {
    var search := CStr(name);
    if FirstIn(search, 0, DelimSet(PathDelims)) == |search| {
      assert '/' !in search;
      var d := SearchDelims(delim);
      var s := CStr(pathString);
      var found := false;
      var entry: Option<string>;
      var cursor: Cursor;
      entry, cursor := StrSep(s, At(0), d);
      while entry.Some?
        invariant cursor.At? ==> cursor.pos <= |s|
        invariant entry.Some? ==>
          ResolveIn([entry.value] + Rest(s, cursor, d), search, probe, strerror)
          == ResolveIn(Tokens(s, d), search, probe, strerror)
        invariant entry.None? ==> ResolveIn(Tokens(s, d), search, probe, strerror) == NotFound
        decreases if cursor.At? then |s| + 2 - cursor.pos else if entry.Some? then 1 else 0
      {
        var pathEntry := entry.value;
        if pathEntry == "" {
          pathEntry := ".";
        }
        var fullpath := pathEntry + PathDelims[..1] + search;
        var stats := probe(fullpath);
        var errno := ErrnoOf(stats);
        if Accepts(stats) {
          found := true;
          r := Resolved(fullpath);
          break;
        }
        if !Ignored(errno) {
          r := Fatal(FatalMessage(strerror(errno), pathEntry, search));
          return;
        }
        entry, cursor := StrSep(s, cursor, d);
      }
      if !found {
        r := NotFound;
      }
    } else {
      r := Resolved(name);
    }
  }

  /** Every candidate before index `k` was skipped. */
  predicate SkippedBefore(entries: seq<string>, k: nat, name: string, probe: string -> Probe)
    requires k <= |entries|
  {
    forall j :: 0 <= j < k ==> Skipped(entries[j], name, probe)
  }

  /** A result path comes from the first accepted candidate. */
  lemma {:induction false} ResolvedAt(entries: seq<string>, name: string, probe: string -> Probe,
                                      strerror: int -> string, path: string) returns (k: nat)
    requires ResolveIn(entries, name, probe, strerror) == Resolved(path)
    ensures k < |entries| && path == Candidate(entries[k], name) && Accepts(probe(path))
    ensures SkippedBefore(entries, k, name, probe)
    decreases |entries|
  {
    if Accepts(probe(Candidate(entries[0], name))) {
      k := 0;
    } else {
      var k' := ResolvedAt(entries[1..], name, probe, strerror, path);
      k := k' + 1;
      assert forall j :: 1 <= j < k ==> entries[j] == entries[1..][j - 1];
    }
  }

  /** The first accepted candidate, after skipped ones, is the result. */
  lemma {:induction false} FirstAcceptedResolves(entries: seq<string>, name: string, probe: string -> Probe,
                                                 strerror: int -> string, k: nat)
    requires k < |entries| && Accepts(probe(Candidate(entries[k], name)))
    requires SkippedBefore(entries, k, name, probe)
    ensures ResolveIn(entries, name, probe, strerror) == Resolved(Candidate(entries[k], name))
    decreases k
  {
    if k > 0 {
      assert Skipped(entries[0], name, probe);
      assert entries[1..][k - 1] == entries[k];
      assert forall j :: 0 <= j < k - 1 ==> entries[1..][j] == entries[j + 1];
      FirstAcceptedResolves(entries[1..], name, probe, strerror, k - 1);
    }
  }

  /** The resolver returns a path exactly when some candidate is a regular
      executable file and every candidate before it was skipped; the path is
      that candidate. */
  lemma ResolveInResolved(entries: seq<string>, name: string, probe: string -> Probe,
                          strerror: int -> string, path: string)
    ensures ResolveIn(entries, name, probe, strerror) == Resolved(path) <==>
      (exists k :: 0 <= k < |entries| && path == Candidate(entries[k], name) && Accepts(probe(path))
        && SkippedBefore(entries, k, name, probe))
  {
    if ResolveIn(entries, name, probe, strerror) == Resolved(path) {
      var k := ResolvedAt(entries, name, probe, strerror, path);
    }
    if exists k :: 0 <= k < |entries| && path == Candidate(entries[k], name) && Accepts(probe(path))
        && SkippedBefore(entries, k, name, probe) {
      var k :| 0 <= k < |entries| && path == Candidate(entries[k], name) && Accepts(probe(path))
        && SkippedBefore(entries, k, name, probe);
      FirstAcceptedResolves(entries, name, probe, strerror, k);
    }
  }

  /** Nothing found is not an error: the resolver reports NotFound exactly
      when every candidate was skipped. */
  lemma {:induction false} ResolveInNotFound(entries: seq<string>, name: string, probe: string -> Probe,
                                             strerror: int -> string)
    ensures ResolveIn(entries, name, probe, strerror) == NotFound <==>
      SkippedBefore(entries, |entries|, name, probe)
    decreases |entries|
  {
    if entries != [] {
      ResolveInNotFound(entries[1..], name, probe, strerror);
      assert forall j :: 1 <= j < |entries| ==> entries[j] == entries[1..][j - 1];
    }
  }

  /** A raised error comes from the first candidate that fails with an errno
      outside the ignored set; the message names that errno's text and that
      candidate's directory. */
  lemma {:induction false} FatalAt(entries: seq<string>, name: string, probe: string -> Probe,
                                   strerror: int -> string) returns (k: nat)
    requires ResolveIn(entries, name, probe, strerror).Fatal?
    ensures k < |entries| && Fails(entries[k], name, probe) && SkippedBefore(entries, k, name, probe)
    ensures ResolveIn(entries, name, probe, strerror).message ==
      FatalMessage(strerror(ErrnoOf(probe(Candidate(entries[k], name)))), EntryDir(entries[k]), name)
    decreases |entries|
  {
    var p := probe(Candidate(entries[0], name));
    if !Ignored(ErrnoOf(p)) {
      k := 0;
    } else {
      var k' := FatalAt(entries[1..], name, probe, strerror);
      k := k' + 1;
      assert forall j :: 1 <= j < k ==> entries[j] == entries[1..][j - 1];
    }
  }

  /** Conversely, a failing candidate after skipped ones raises. */
  lemma {:induction false} FirstFailureRaises(entries: seq<string>, name: string, probe: string -> Probe,
                                              strerror: int -> string, k: nat)
    requires k < |entries| && Fails(entries[k], name, probe)
    requires SkippedBefore(entries, k, name, probe)
    ensures ResolveIn(entries, name, probe, strerror).Fatal?
    decreases k
  {
    if k > 0 {
      assert Skipped(entries[0], name, probe);
      assert entries[1..][k - 1] == entries[k];
      assert forall j :: 0 <= j < k - 1 ==> entries[1..][j] == entries[j + 1];
      FirstFailureRaises(entries[1..], name, probe, strerror, k - 1);
    }
  }
}
