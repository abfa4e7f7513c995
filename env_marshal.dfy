/** The environment marshaller inside `execute_process`: the `env` table is
    walked pair by pair, each pair becomes one environment string held by a
    freshly allocated link that is prepended to a singly linked list, and the
    list is then copied back to front into a NULL-terminated array. How the
    pairs are produced (`lua_next` or a `__pairs` metamethod) is not modelled:
    the walk is an input sequence of pairs. */
module EnvMarshal {
  import opened Wrappers
  import opened CStrings
  import opened EnvSnapshot

  /** A table key as the marshaller distinguishes it: a number (an array
      slot) or anything converted to its string form. */
  datatype Key = Number(n: int) | Name(name: string)

  datatype Pair = Pair(key: Key, value: string)

  /** The environment string a pair stands for: under a numeric key the
      value is already a `KEY=VALUE` string and is taken verbatim; under any
      other key it is `key=value`. */
  function Format(p: Pair): (s: string)
    ensures p.key.Number? ==> s == p.value
    ensures p.key.Name? ==> |s| == |p.key.name| + 1 + |p.value| && s[|p.key.name|] == '='
    ensures p.key.Name? ==> s[..|p.key.name|] == p.key.name && s[|p.key.name| + 1..] == p.value
  {
    if p.key.Number? then p.value else p.key.name + "=" + p.value
  }

  /** The environment strings of the pairs, in iteration order. */
  function Marshal(pairs: seq<Pair>): (env: seq<string>)
    ensures |env| == |pairs|
    ensures forall i :: 0 <= i < |pairs| ==> env[i] == Format(pairs[i])
  {
    seq(|pairs|, i requires 0 <= i < |pairs| => Format(pairs[i]))
  }

  /** One node of the scratch list: its string and the node allocated before
      it. Nodes are never changed once allocated. `Strings` is the content of
      the list seen from this node: every string from the first node
      allocated up to this one, in allocation order. */
  class Link {
    const text: string
    const parent: Link?
    ghost const Strings: seq<string>
    ghost const depth: nat

    ghost predicate Valid()
      decreases depth
    {
      |Strings| == depth + 1 && Strings[depth] == text &&
      (parent == null ==> depth == 0) &&
      (parent != null ==> parent.depth + 1 == depth && parent.Valid() && parent.Strings == Strings[..depth])
    }

    constructor (text: string, parent: Link?)
      requires parent != null ==> parent.Valid()
      ensures Valid()
      ensures this.text == text && this.parent == parent
      ensures Strings == (if parent == null then [] else parent.Strings) + [text]
    {
      this.text := text;
      this.parent := parent;
      if parent == null {
        Strings := [text];
        depth := 0;
      } else {
        Strings := parent.Strings + [text];
        depth := parent.depth + 1;
      }
    }
  }

  /** The walk over the pairs: each one becomes a new head link. */
  method BuildLinks(pairs: seq<Pair>) returns (head: Link?, count: nat)
    ensures count == |pairs|
    ensures head == null <==> pairs == []
    ensures head != null ==> head.Valid() && head.Strings == Marshal(pairs)
  {
    head := null;
    count := 0;
    while count < |pairs|
      invariant count <= |pairs|
      invariant head == null <==> count == 0
      invariant head != null ==> head.Valid() && head.Strings == Marshal(pairs[..count])
    {
      var p := pairs[count];
      var text: string;
      if p.key.Number? {
        text := p.value;
      } else {
        text := p.key.name + "=" + p.value;
      }
      assert text == Format(p);
      MarshalPrefix(pairs, count);
      head := new Link(text, head);
      count := count + 1;
    }
    assert pairs[..count] == pairs;
  }

  /** The strings of one more pair: the strings so far, then its own. */
  lemma MarshalPrefix(pairs: seq<Pair>, n: nat)
    requires n < |pairs|
    ensures Marshal(pairs[..n + 1]) == Marshal(pairs[..n]) + [Format(pairs[n])]
  {
  }

  /** Copies the list into a NULL-terminated array, filling it from the back
      (`new_env[env_count--] = NULL`, then one slot per link), so that the
      array comes out in iteration order. */
  method Flatten(head: Link?, count: nat) returns (newEnv: array<Option<string>>)
    requires head == null ==> count == 0
    requires head != null ==> head.Valid() && |head.Strings| == count
    ensures newEnv[..] == NullTerminated(if head == null then [] else head.Strings)
  {
    newEnv := new Option<string>[count + 1];
    var envCount: int := count;
    newEnv[envCount] := None;
    envCount := envCount - 1;
    var link := head;
    var i := envCount;
    while i >= 0
      invariant -1 <= i < count
      invariant link != null <==> i >= 0
      invariant link != null ==> link.Valid() && head != null && link.Strings == head.Strings[..i + 1]
      invariant forall k :: i < k < count ==> newEnv[k] == Some(head.Strings[k])
      invariant newEnv[count] == None
    {
      newEnv[i] := Some(link.text);
      link := link.parent;
      i := i - 1;
    }
    assert newEnv[..] == NullTerminated(if head == null then [] else head.Strings);
  }

  /** The cleanup loop after process creation: walks the list from the head,
      freeing every link once. */
  method FreeLinks(head: Link?) returns (freed: nat)
    requires head != null ==> head.Valid()
    ensures freed == (if head == null then 0 else |head.Strings|)
  {
    var cur := head;
    freed := 0;
    while cur != null
      invariant cur != null ==> cur.Valid()
      invariant freed + (if cur == null then 0 else |cur.Strings|) == (if head == null then 0 else |head.Strings|)
      decreases if cur == null then 0 else cur.depth + 1
    {
      cur := cur.parent;
      freed := freed + 1;
    }
  }

  /** The table a script means by a sequence of string-keyed pairs: each pair
      sets its key, a later pair overwriting an earlier one. */
  function Table(pairs: seq<Pair>): map<string, string>
    requires forall i :: 0 <= i < |pairs| ==> pairs[i].key.Name?
  {
    if pairs == [] then map[]
    else
      var last := pairs[|pairs| - 1];
      Table(pairs[..|pairs| - 1])[last.key.name := last.value]
  }

  /** The environment strings as the child receives them: `rs_data_c` hands
      each over as a C string, which ends at its first NUL. */
  function ChildView(env: seq<string>): (v: seq<string>)
    ensures |v| == |env|
    ensures forall i :: 0 <= i < |env| ==> v[i] == CStr(env[i])
  {
    seq(|env|, i requires 0 <= i < |env| => CStr(env[i]))
  }

  /** The marshalled strings, read back the way `pushenv` reads `environ`,
      give the script's table, later pairs winning. */
  lemma {:induction false} SnapshotOfMarshal(pairs: seq<Pair>)
    requires forall i :: 0 <= i < |pairs| ==> pairs[i].key.Name? && '=' !in pairs[i].key.name
    ensures Snapshot(Marshal(pairs)) == Table(pairs)
  {
    if pairs != [] {
      var init := pairs[..|pairs| - 1];
      var last := pairs[|pairs| - 1];
      var entry := Format(last);
      SnapshotOfMarshal(init);
      assert Marshal(pairs) == Marshal(init) + [entry] by {
        MarshalPrefix(pairs, |pairs| - 1);
        assert pairs[..|pairs|] == pairs;
      }
      assert SplitEntry(entry) == Some((last.key.name, last.value)) by {
        assert entry == last.key.name + "=" + last.value;
        SplitEntryRoundTrip(last.key.name, last.value);
      }
      SnapshotAppend(Marshal(init), entry);
    }
  }

  /** Replacement is exact: a child that reads the environment it is given
      the way the snapshot does sees precisely the table the script passed,
      as long as no key contains `=` and no key or value contains NUL. */
  lemma MarshalSnapshot(pairs: seq<Pair>)
    requires forall i :: 0 <= i < |pairs| ==> pairs[i].key.Name? && '=' !in pairs[i].key.name
    requires forall i :: 0 <= i < |pairs| ==> '\0' !in pairs[i].key.name && '\0' !in pairs[i].value
    ensures Snapshot(ChildView(Marshal(pairs))) == Table(pairs)
  {
    forall i | 0 <= i < |pairs|
      ensures CStr(Marshal(pairs)[i]) == Marshal(pairs)[i]
    {
      CStrOfPlain(Format(pairs[i]));
    }
    assert ChildView(Marshal(pairs)) == Marshal(pairs);
    SnapshotOfMarshal(pairs);
  }

  /** A key with a NUL in it is cut short on its way to the child: `A\0B`
      set to `v` reaches the child as `A`, which has no `=` and is dropped. */
  lemma NulKeyDropped()
    ensures Table([Pair(Name("A\0B"), "v")]) == map["A\0B" := "v"]
    ensures Snapshot(ChildView(Marshal([Pair(Name("A\0B"), "v")]))) == map[]
  {
    var entry := Format(Pair(Name("A\0B"), "v"));
    assert entry == "A\0B=v";
    assert FirstIn(entry, 1, {'\0'}) == 1;
    assert CStr(entry) == "A";
    assert ChildView(Marshal([Pair(Name("A\0B"), "v")])) == ["A"];
    assert SplitEntry("A").None?;
    assert Snapshot(["A"]) == Snapshot([] + ["A"]);
    SnapshotAppend([], "A");
  }
}
