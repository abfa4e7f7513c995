/** `pushenv`: the host environment snapshot handed to build scripts as
    `__ORO__.env`. The POSIX `environ` block is an input sequence of C
    strings; the Lua table it fills is a map. */
module EnvSnapshot {
  import opened Wrappers
  import opened CStrings

  /** An environment entry cut at its first `=`: the name before it and the
      value after it, which may itself contain `=`. Entries without `=` have
      no name/value reading. */
  function SplitEntry(entry: string): (r: Option<(string, string)>)
    ensures r.None? <==> '=' !in entry
    ensures r.Some? ==> '=' !in r.value.0 && entry == r.value.0 + "=" + r.value.1
  {
    var i := FirstIn(entry, 0, {'='});
    if i == |entry| then None
    else
      assert entry == entry[..i] + [entry[i]] + entry[i + 1..];
      Some((entry[..i], entry[i + 1..]))
  }

  /** Writing `name=value` and cutting it at the first `=` gives back the name
      and the value, whenever the name has no `=` of its own. */
  lemma SplitEntryRoundTrip(name: string, value: string)
    requires '=' !in name
    ensures SplitEntry(name + "=" + value) == Some((name, value))
  {
    var e := name + "=" + value;
    forall k | 0 <= k < |name|
      ensures e[k] !in {'='}
    {
      assert e[k] == name[k];
    }
    FirstInUnique(e, 0, {'='}, |name|);
    assert e[..|name|] == name;
    assert e[|name| + 1..] == value;
  }

  /** The table after entering `environ` in order: each entry with a `=`
      sets its name to its value, a later entry overwriting an earlier one. */
  function Snapshot(environ: seq<string>): map<string, string>
  {
    if environ == [] then map[]
    else
      var m := Snapshot(environ[..|environ| - 1]);
      var e := SplitEntry(environ[|environ| - 1]);
      if e.None? then m else m[e.value.0 := e.value.1]
  }

  /** Entering one more entry: it sets its name, if it has one. */
  lemma SnapshotAppend(environ: seq<string>, e: string)
    ensures Snapshot(environ + [e]) ==
      (if SplitEntry(e).None? then Snapshot(environ)
       else Snapshot(environ)[SplitEntry(e).value.0 := SplitEntry(e).value.1])
  {
    assert (environ + [e])[..|environ|] == environ;
  }

  /** `pushenv`: walks `environ` one pointer at a time, skipping entries
      without `=`. */
  method PushEnv(environ: seq<string>) returns (env: map<string, string>)
    ensures env == Snapshot(environ)
  {
    env := map[];
    var i := 0;
    while i < |environ|
      invariant i <= |environ|
      invariant env == Snapshot(environ[..i])
    {
      var entry := environ[i];
      var eq := FirstIn(entry, 0, {'='});
      assert environ[..i + 1][..i] == environ[..i];
      if eq < |entry| {
        env := env[entry[..eq] := entry[eq + 1..]];
      }
      i := i + 1;
    }
    assert environ[..i] == environ;
  }

  /** The name an entry sets, if any. */
  predicate Sets(entry: string, name: string)
  {
    SplitEntry(entry).Some? && SplitEntry(entry).value.0 == name
  }

  /** A name is in the snapshot exactly when some entry sets it. */
  lemma {:induction false} SnapshotHas(environ: seq<string>, name: string)
    ensures name in Snapshot(environ) <==> exists i :: 0 <= i < |environ| && Sets(environ[i], name)
  {
    if environ != [] {
      var init := environ[..|environ| - 1];
      var e := environ[|environ| - 1];
      assert environ == init + [e];
      SnapshotAppend(init, e);
      SnapshotHas(init, name);
      assert name in Snapshot(environ) <==> name in Snapshot(init) || Sets(e, name);
      if exists i :: 0 <= i < |environ| && Sets(environ[i], name) {
        var i :| 0 <= i < |environ| && Sets(environ[i], name);
        if i < |init| {
          assert Sets(init[i], name);
        }
      }
      if exists i :: 0 <= i < |init| && Sets(init[i], name) {
        var i :| 0 <= i < |init| && Sets(init[i], name);
        assert Sets(environ[i], name);
      }
    }
  }

  /** The value of a name is the one its last entry gives: entries are
      entered in order, so the last one that sets the name wins. */
  lemma {:induction false} SnapshotLastWins(environ: seq<string>, i: nat, name: string, value: string)
    requires i < |environ| && SplitEntry(environ[i]) == Some((name, value))
    requires forall j :: i < j < |environ| ==> !Sets(environ[j], name)
    ensures name in Snapshot(environ) && Snapshot(environ)[name] == value
  {
    var init := environ[..|environ| - 1];
    if i < |environ| - 1 {
      assert forall j :: i < j < |init| ==> init[j] == environ[j];
      SnapshotLastWins(init, i, name, value);
      assert !Sets(environ[|environ| - 1], name);
    }
  }
}
